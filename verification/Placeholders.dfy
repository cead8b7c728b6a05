/**
 The numbered placeholders of a batch statement: how they are printed, how a database reads them, and that
 reading what was printed gives every argument back exactly once, in order, with its column's cast.
 */
module Placeholders {
  import opened Bundles

  /** `$index` or `$index::cast`. */
  datatype Token = Token(index: nat, cast: Option<string>)

  type Casts = map<nat, string>

  /** A type name ends before the next separator. */
  predicate PlainName(name: string) {
    ',' !in name && ')' !in name
  }

  ghost predicate PlainCasts(special: Casts) {
    forall k | k in special :: PlainName(special[k])
  }

  // ---------------------------------------------------------------- numbers

  predicate IsDigit(c: char) {
    '0' <= c <= '9'
  }

  function DigitValue(c: char): nat
    requires IsDigit(c)
  {
    c as int - '0' as int
  }

  function Itoa(n: nat): string {
    if n < 10 then [('0' as int + n) as char] else Itoa(n / 10) + [('0' as int + n % 10) as char]
  }

  /** The number of leading digits. */
  function DigitRun(s: string): (n: nat)
    ensures n <= |s| && forall i | 0 <= i < n :: IsDigit(s[i])
  {
    if s == "" || !IsDigit(s[0]) then 0 else 1 + DigitRun(s[1..])
  }

  function Atoi(s: string): nat
    requires forall i | 0 <= i < |s| :: IsDigit(s[i])
  {
    if s == "" then 0 else 10 * Atoi(s[..|s| - 1]) + DigitValue(s[|s| - 1])
  }

  lemma {:induction false} ItoaIsDecimal(n: nat)
    ensures Itoa(n) != "" && forall i | 0 <= i < |Itoa(n)| :: IsDigit(Itoa(n)[i])
    ensures Atoi(Itoa(n)) == n
  {
    if n < 10 {
      assert Itoa(n)[..0] == "";
    } else {
      ItoaIsDecimal(n / 10);
      var s := Itoa(n);
      assert s[..|s| - 1] == Itoa(n / 10);
    }
  }

  lemma {:induction false} DigitRunOf(digits: string, rest: string)
    requires forall i | 0 <= i < |digits| :: IsDigit(digits[i])
    requires rest == "" || !IsDigit(rest[0])
    ensures DigitRun(digits + rest) == |digits|
  {
    if digits == "" {
      assert digits + rest == rest;
    } else {
      assert (digits + rest)[1..] == digits[1..] + rest;
      DigitRunOf(digits[1..], rest);
    }
  }

  // ---------------------------------------------------------------- printing

  function CastOf(special: Casts, column: nat): Option<string> {
    if column in special then Some(special[column]) else None
  }

  function CastText(cast: Option<string>): string {
    if cast.Some? then "::" + cast.value else ""
  }

  function TokenText(t: Token): string {
    "$" + Itoa(t.index) + CastText(t.cast)
  }

  function Separator(i: nat, n: nat): string {
    if i + 1 < n then ", " else ""
  }

  function ListToken(i: nat, start: nat, special: Casts): Token {
    Token(i + start, CastOf(special, i + 1))
  }

  /** Arguments i to n of a list whose first argument has index `start`. */
  function ListText(i: nat, n: nat, start: nat, special: Casts): string
    requires i <= n
    decreases n - i
  {
    if i == n then ""
    else TokenText(ListToken(i, start, special)) + Separator(i, n) + ListText(i + 1, n, start, special)
  }

  function RowsText(i: nat, rows: nat, columns: nat, special: Casts): string
    requires i <= rows
    decreases rows - i
  {
    if i == rows then ""
    else "(" + ListText(0, columns, i * columns + 1, special) + ")" + Separator(i, rows) +
         RowsText(i + 1, rows, columns, special)
  }

  lemma Regroup(a: string, b: string, c: string)
    ensures a + (b + c) == a + b + c
  {
  }

  method GenerateArgsList(argsCount: nat, startingIndex: nat, specialArgs: Casts) returns (text: string)
    ensures text == ListText(0, argsCount, startingIndex, specialArgs)
  {
    hide Itoa, ParseNat, ParseCast, ParseToken, ParseTokens;
    text := "";
    for i := 0 to argsCount
      invariant text + ListText(i, argsCount, startingIndex, specialArgs) ==
                ListText(0, argsCount, startingIndex, specialArgs)
    {
      var argument := "$" + Itoa(i + startingIndex);
      if i + 1 in specialArgs {
        argument := argument + ("::" + specialArgs[i + 1]);
      } else {
        Regroup(argument, "", "");
      }
      if i < argsCount - 1 {
        argument := argument + ", ";
      } else {
        Regroup(argument, "", "");
      }
      Regroup(text, argument, ListText(i + 1, argsCount, startingIndex, specialArgs));
      text := text + argument;
    }
    Regroup(text, "", "");
  }

  method GenerateInsertOrUpdateArgs(rowsCount: nat, columnsCount: nat, specialColumns: Casts) returns (text: string)
    ensures text == RowsText(0, rowsCount, columnsCount, specialColumns)
  {
    hide ListText;
    text := "";
    for i := 0 to rowsCount
      invariant text + RowsText(i, rowsCount, columnsCount, specialColumns) ==
                RowsText(0, rowsCount, columnsCount, specialColumns)
    {
      var list := GenerateArgsList(columnsCount, i * columnsCount + 1, specialColumns);
      var row := "(" + list + ")";
      if i < rowsCount - 1 {
        row := row + ", ";
      } else {
        Regroup(row, "", "");
      }
      Regroup(text, row, RowsText(i + 1, rowsCount, columnsCount, specialColumns));
      text := text + row;
    }
    Regroup(text, "", "");
  }

  // ---------------------------------------------------------------- parsing

  function ParseNat(s: string): Option<(nat, string)> {
    var n := DigitRun(s);
    if n == 0 then None else Some((Atoi(s[..n]), s[n..]))
  }

  /** The number of characters before the next separator. */
  function NameRun(s: string): (n: nat)
    ensures n <= |s|
  {
    if s == "" || s[0] == ',' || s[0] == ')' then 0 else 1 + NameRun(s[1..])
  }

  function ParseCast(s: string): (r: (Option<string>, string))
    ensures |r.1| <= |s|
  {
    if !("::" <= s) then (None, s)
    else (Some(s[2..][..NameRun(s[2..])]), s[2..][NameRun(s[2..])..])
  }

  function ParseToken(s: string): (r: Option<(Token, string)>)
    ensures r.Some? ==> |r.value.1| < |s|
  {
    if s == "" || s[0] != '$' then None
    else match ParseNat(s[1..])
      case None => None
      case Some((index, rest)) =>
        var (cast, rest') := ParseCast(rest);
        Some((Token(index, cast), rest'))
  }

  /** One or more tokens, separated by a comma and a space. */
  function ParseTokens(s: string): (r: Option<(seq<Token>, string)>)
    ensures r.Some? ==> |r.value.1| < |s|
    decreases |s|
  {
    match ParseToken(s)
    case None => None
    case Some((t, rest)) =>
      if !(", " <= rest) then Some(([t], rest))
      else match ParseTokens(rest[2..])
        case None => None
        case Some((ts, rest')) => Some(([t] + ts, rest'))
  }

  function ParseList(s: string): (r: Option<(seq<Token>, string)>)
    ensures r.Some? ==> |r.value.1| <= |s|
  {
    if s == "" || s[0] == ')' then Some(([], s)) else ParseTokens(s)
  }

  function ParseWholeList(s: string): Option<seq<Token>> {
    match ParseList(s)
    case None => None
    case Some((ts, rest)) => if rest == "" then Some(ts) else None
  }

  function ParseSomeRows(s: string): Option<seq<seq<Token>>>
    decreases |s|
  {
    if s == "" || s[0] != '(' then None
    else match ParseList(s[1..])
      case None => None
      case Some((ts, rest)) =>
        if rest == "" || rest[0] != ')' then None
        else if rest[1..] == "" then Some([ts])
        else if !(", " <= rest[1..]) then None
        else match ParseSomeRows(rest[1..][2..])
          case None => None
          case Some(rows) => Some([ts] + rows)
  }

  function ParseRows(s: string): Option<seq<seq<Token>>> {
    if s == "" then Some([]) else ParseSomeRows(s)
  }

  // ---------------------------------------------------------------- round trip

  function ListTokens(i: nat, n: nat, start: nat, special: Casts): (ts: seq<Token>)
    requires i <= n
    ensures |ts| == n - i
    ensures forall j | 0 <= j < n - i :: ts[j] == Token(i + j + start, CastOf(special, i + j + 1))
    decreases n - i
  {
    if i == n then [] else [ListToken(i, start, special)] + ListTokens(i + 1, n, start, special)
  }

  function RowTokens(i: nat, rows: nat, columns: nat, special: Casts): (ts: seq<seq<Token>>)
    requires i <= rows
    ensures |ts| == rows - i
    ensures forall r | 0 <= r < rows - i :: ts[r] == ListTokens(0, columns, (i + r) * columns + 1, special)
    decreases rows - i
  {
    if i == rows then []
    else [ListTokens(0, columns, i * columns + 1, special)] + RowTokens(i + 1, rows, columns, special)
  }

  lemma {:induction false} NameRunOf(name: string, rest: string)
    requires PlainName(name) && (rest == "" || rest[0] == ',' || rest[0] == ')')
    ensures NameRun(name + rest) == |name|
  {
    if name == "" {
      assert name + rest == rest;
    } else {
      assert (name + rest)[1..] == name[1..] + rest;
      NameRunOf(name[1..], rest);
    }
  }

  lemma NatRoundTrip(n: nat, rest: string)
    requires rest == "" || !IsDigit(rest[0])
    ensures ParseNat(Itoa(n) + rest) == Some((n, rest))
  {
    ItoaIsDecimal(n);
    DigitRunOf(Itoa(n), rest);
    assert (Itoa(n) + rest)[..|Itoa(n)|] == Itoa(n) && (Itoa(n) + rest)[|Itoa(n)|..] == rest;
  }

  lemma CastRoundTrip(cast: Option<string>, rest: string)
    requires cast.Some? ==> PlainName(cast.value)
    requires rest == "" || rest[0] == ',' || rest[0] == ')'
    ensures ParseCast(CastText(cast) + rest) == (cast, rest)
  {
    if cast.Some? {
      NameRunOf(cast.value, rest);
      assert (CastText(cast) + rest)[2..] == cast.value + rest;
      assert (cast.value + rest)[..|cast.value|] == cast.value && (cast.value + rest)[|cast.value|..] == rest;
    } else {
      assert CastText(cast) + rest == rest;
    }
  }

  lemma TokenRoundTrip(t: Token, rest: string)
    requires t.cast.Some? ==> PlainName(t.cast.value)
    requires rest == "" || rest[0] == ',' || rest[0] == ')'
    ensures ParseToken(TokenText(t) + rest) == Some((t, rest))
  {
    hide Itoa, ParseNat, ParseCast;
    var tail := CastText(t.cast) + rest;
    NatRoundTrip(t.index, tail);
    CastRoundTrip(t.cast, rest);
    assert (TokenText(t) + rest)[1..] == Itoa(t.index) + tail;
  }

  lemma {:induction false} TokensRoundTrip(i: nat, n: nat, start: nat, special: Casts, rest: string)
    requires i < n && PlainCasts(special)
    requires rest == "" || rest[0] == ')'
    ensures ParseTokens(ListText(i, n, start, special) + rest) == Some((ListTokens(i, n, start, special), rest))
    decreases n - i
  {
    hide TokenText, ParseToken;
    var t := ListToken(i, start, special);
    if i == n - 1 {
      TokenRoundTrip(t, rest);
      assert ListText(i, n, start, special) == TokenText(t);
      assert ListTokens(i, n, start, special) == [t];
    } else {
      var tail := ListText(i + 1, n, start, special) + rest;
      assert ListText(i, n, start, special) + rest == TokenText(t) + (", " + tail);
      TokenRoundTrip(t, ", " + tail);
      assert (", " + tail)[2..] == tail;
      TokensRoundTrip(i + 1, n, start, special, rest);
    }
  }

  lemma ListRoundTrip(n: nat, start: nat, special: Casts, rest: string)
    requires PlainCasts(special)
    requires rest == "" || rest[0] == ')'
    ensures ParseList(ListText(0, n, start, special) + rest) == Some((ListTokens(0, n, start, special), rest))
  {
    if n == 0 {
      assert "" + rest == rest;
    } else {
      TokensRoundTrip(0, n, start, special, rest);
      assert (ListText(0, n, start, special) + rest)[0] == '$';
    }
  }

  lemma Parenthesized(list: string, separator: string, rest: string)
    ensures var s := "(" + list + ")" + separator + rest;
            s != "" && s[0] == '(' && s[1..] == list + (")" + (separator + rest))
  {
  }

  lemma {:induction false} SomeRowsRoundTrip(i: nat, rows: nat, columns: nat, special: Casts)
    requires i < rows && PlainCasts(special)
    ensures ParseSomeRows(RowsText(i, rows, columns, special)) == Some(RowTokens(i, rows, columns, special))
    decreases rows - i
  {
    hide ListText, ParseList, ListTokens;
    var list := ListText(0, columns, i * columns + 1, special);
    var tail := Separator(i, rows) + RowsText(i + 1, rows, columns, special);
    var s := RowsText(i, rows, columns, special);
    Parenthesized(list, Separator(i, rows), RowsText(i + 1, rows, columns, special));
    ListRoundTrip(columns, i * columns + 1, special, ")" + tail);
    assert (")" + tail)[1..] == tail;
    if i < rows - 1 {
      assert tail[2..] == RowsText(i + 1, rows, columns, special);
      SomeRowsRoundTrip(i + 1, rows, columns, special);
    } else {
      assert tail == "";
      assert RowTokens(i, rows, columns, special) == [ListTokens(0, columns, i * columns + 1, special)];
    }
  }

  /** Row i column j is the placeholder of argument i*columns+j, with the cast of column j+1. */
  ghost predicate Numbered(grid: seq<seq<Token>>, rows: nat, columns: nat, special: Casts) {
    && |grid| == rows
    && forall i | 0 <= i < rows ::
         && |grid[i]| == columns
         && forall j | 0 <= j < columns :: grid[i][j] == Token(i * columns + j + 1, CastOf(special, j + 1))
  }

  /** For any number of rows and columns and any casts, the printed text reads back as the numbered grid. */
  lemma RowsRoundTrip(rows: nat, columns: nat, special: Casts)
    requires PlainCasts(special)
    ensures ParseRows(RowsText(0, rows, columns, special)) == Some(RowTokens(0, rows, columns, special))
    ensures Numbered(RowTokens(0, rows, columns, special), rows, columns, special)
  {
    if rows > 0 {
      SomeRowsRoundTrip(0, rows, columns, special);
      assert RowsText(0, rows, columns, special) != "";
    }
    var parsed := RowTokens(0, rows, columns, special);
    forall i | 0 <= i < rows
      ensures |parsed[i]| == columns
      ensures forall j | 0 <= j < columns :: parsed[i][j] == Token(i * columns + j + 1, CastOf(special, j + 1))
    {
      assert parsed[i] == ListTokens(0, columns, (0 + i) * columns + 1, special);
    }
  }

  function Flatten<T>(rows: seq<seq<T>>): seq<T> {
    if rows == [] then [] else rows[0] + Flatten(rows[1..])
  }

  /** Read left to right, the printed indices are start, start+1, ..., each exactly once. */
  lemma {:induction false} IndicesInOrder(i: nat, rows: nat, columns: nat, special: Casts)
    requires i <= rows
    ensures |Flatten(RowTokens(i, rows, columns, special))| == (rows - i) * columns
    ensures forall k | 0 <= k < (rows - i) * columns ::
              Flatten(RowTokens(i, rows, columns, special))[k].index == i * columns + k + 1
    decreases rows - i
  {
    if i < rows {
      IndicesInOrder(i + 1, rows, columns, special);
      var all := RowTokens(i, rows, columns, special);
      var rest := RowTokens(i + 1, rows, columns, special);
      assert all[1..] == rest;
      assert (rows - i) * columns == columns + (rows - (i + 1)) * columns;
      assert (i + 1) * columns == i * columns + columns;
      forall k | 0 <= k < (rows - i) * columns ensures Flatten(all)[k].index == i * columns + k + 1 {
        if k >= columns { assert Flatten(all)[k] == Flatten(rest)[k - columns]; }
      }
    }
  }
}
