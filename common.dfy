/** Shared vocabulary of the model: the Option type and the small set of
    string operations the collectors use (Rust's `str::lines`, `split`,
    `splitn`, `split_whitespace`, `trim`, `find`, `starts_with`, `join`),
    restricted to ASCII case mapping and ASCII whitespace. */
module Common {

  datatype Option<+T> = None | Some(value: T) {
    function GetOr(default: T): T {
      match this
      case Some(v) => v
      case None => default
    }
  }

  // ---------------------------------------------------------------- chars

  predicate IsAsciiDigit(c: char) { '0' <= c <= '9' }

  predicate IsAsciiAlphanumeric(c: char) {
    IsAsciiDigit(c) || 'a' <= c <= 'z' || 'A' <= c <= 'Z'
  }

  /** ASCII part of Rust's `char::is_whitespace`. */
  predicate IsWhitespace(c: char) {
    c == ' ' || c == '\t' || c == '\n' || c == '\r' || c == '\U{000B}' || c == '\U{000C}'
  }

  function ToLowerChar(c: char): char {
    if 'A' <= c <= 'Z' then (c as int + 32) as char else c
  }

  function ToUpperChar(c: char): char {
    if 'a' <= c <= 'z' then (c as int - 32) as char else c
  }

  function ToLower(s: string): string {
    seq(|s|, i requires 0 <= i < |s| => ToLowerChar(s[i]))
  }

  predicate IsDigits(s: string) {
    forall i :: 0 <= i < |s| ==> IsAsciiDigit(s[i])
  }

  // ----------------------------------------------------------- searching

  predicate StartsWith(s: string, p: string) {
    |p| <= |s| && s[..|p|] == p
  }

  /** First index of character `c` in `s`. */
  function IndexOf(s: string, c: char): (r: Option<nat>)
    ensures r.Some? ==> r.value < |s| && s[r.value] == c && c !in s[..r.value]
    ensures r.None? ==> c !in s
  {
    if |s| == 0 then None
    else if s[0] == c then Some(0)
    else match IndexOf(s[1..], c)
      case None => None
      case Some(k) => assert s[..k + 1] == [s[0]] + s[1..][..k]; Some(k + 1)
  }

  /** First position at which `p` occurs in `s` (Rust's `str::find`). */
  function Find(s: string, p: string): (r: Option<nat>)
    ensures r.Some? ==> r.value + |p| <= |s| && s[r.value..r.value + |p|] == p
    ensures r.Some? ==> StartsWith(s[r.value..], p)
    ensures r.Some? ==> forall j {:trigger StartsWith(s[j..], p)} :: 0 <= j < r.value ==> !StartsWith(s[j..], p)
    ensures r.None? ==> forall j {:trigger StartsWith(s[j..], p)} :: 0 <= j <= |s| ==> !StartsWith(s[j..], p)
  {
    var r := FindFrom(s, p, 0);
    if r.Some? then
      assert s[r.value..][..|p|] == s[r.value..r.value + |p|];
      r
    else r
  }

  /** The search of `Find`, from position `i` on. */
  function FindFrom(s: string, p: string, i: nat): (r: Option<nat>)
    requires i <= |s|
    ensures r.Some? ==> i <= r.value <= |s| && StartsWith(s[r.value..], p)
    ensures r.Some? ==> forall j {:trigger StartsWith(s[j..], p)} :: i <= j < r.value ==> !StartsWith(s[j..], p)
    ensures r.None? ==> forall j {:trigger StartsWith(s[j..], p)} :: i <= j <= |s| ==> !StartsWith(s[j..], p)
    decreases |s| - i
  {
    if StartsWith(s[i..], p) then Some(i)
    else if i == |s| then None
    else FindFrom(s, p, i + 1)
  }

  predicate Contains(s: string, p: string) {
    Find(s, p).Some?
  }

  // ------------------------------------------------------------ trimming

  function TrimStart(s: string): (r: string)
    ensures |r| <= |s| && r == s[|s| - |r|..]
    ensures r == [] || !IsWhitespace(r[0])
  {
    if |s| > 0 && IsWhitespace(s[0]) then TrimStart(s[1..]) else s
  }

  function TrimEnd(s: string): (r: string)
    ensures |r| <= |s| && r == s[..|r|]
    ensures r == [] || !IsWhitespace(r[|r| - 1])
  {
    if |s| > 0 && IsWhitespace(s[|s| - 1]) then TrimEnd(s[..|s| - 1]) else s
  }

  /** Rust's `str::trim`. */
  function Trim(s: string): string {
    TrimEnd(TrimStart(s))
  }

  /** Rust's `trim_end_matches(c)`: drops every trailing `c`. */
  function TrimEndMatches(s: string, c: char): (r: string)
    ensures |r| <= |s| && r == s[..|r|]
    ensures r == [] || r[|r| - 1] != c
  {
    if |s| > 0 && s[|s| - 1] == c then TrimEndMatches(s[..|s| - 1], c) else s
  }

  // ----------------------------------------------------------- splitting

  /** Length of the leading run of non-whitespace characters. */
  function TokenLength(s: string): (k: nat)
    ensures k <= |s|
    ensures forall i :: 0 <= i < k ==> !IsWhitespace(s[i])
    ensures k < |s| ==> IsWhitespace(s[k])
  {
    if |s| == 0 || IsWhitespace(s[0]) then 0 else 1 + TokenLength(s[1..])
  }

  /** Rust's `split_whitespace`: the maximal non-whitespace runs, in order. */
  function SplitWhitespace(s: string): (r: seq<string>)
    decreases |s|
  {
    var t := TrimStart(s);
    if t == [] then []
    else
      var k := TokenLength(t);
      assert k > 0;
      var rest := SplitWhitespace(t[k..]);
      [t[..k]] + rest
  }

  /** Rust's `split(c)`: always at least one piece, none containing `c`. */
  function Split(s: string, c: char): (r: seq<string>)
    ensures |r| >= 1
    ensures forall i :: 0 <= i < |r| ==> c !in r[i]
    decreases |s|
  {
    match IndexOf(s, c)
    case None => [s]
    case Some(i) => [s[..i]] + Split(s[i + 1..], c)
  }

  /** Rust's `splitn(n, c)`: at most `n` pieces; the last keeps any further `c`. */
  function SplitN(s: string, n: nat, c: char): (r: seq<string>)
    requires n >= 1
    ensures 1 <= |r| <= n
    ensures forall i :: 0 <= i < |r| - 1 ==> c !in r[i]
    decreases n
  {
    if n == 1 then [s]
    else match IndexOf(s, c)
      case None => [s]
      case Some(i) => [s[..i]] + SplitN(s[i + 1..], n - 1, c)
  }

  /** Rust's `str::lines`: pieces between `\n`s; a `\r` right before a `\n`
      is dropped; a final `\n` does not start another (empty) line. */
  function Lines(s: string): (r: seq<string>)
    ensures forall i :: 0 <= i < |r| ==> '\n' !in r[i]
    decreases |s|
  {
    if s == [] then []
    else match IndexOf(s, '\n')
      case None => [s]
      case Some(i) => [StripCarriageReturn(s[..i])] + Lines(s[i + 1..])
  }

  function StripCarriageReturn(s: string): (r: string)
    ensures |r| <= |s| && r == s[..|r|]
  {
    if |s| > 0 && s[|s| - 1] == '\r' then s[..|s| - 1] else s
  }

  /** Rust's `join(sep)`. */
  function Join(parts: seq<string>, sep: string): string {
    if |parts| == 0 then ""
    else if |parts| == 1 then parts[0]
    else parts[0] + sep + Join(parts[1..], sep)
  }

  // --------------------------------------------------------------- numbers

  function DigitChar(d: nat): char
    requires d < 10
  {
    ('0' as int + d) as char
  }

  /** Decimal rendering of a natural number (Rust's `Display` for integers). */
  function NatToString(n: nat): (r: string)
    ensures |r| >= 1 && IsDigits(r)
  {
    if n < 10 then [DigitChar(n)] else NatToString(n / 10) + [DigitChar(n % 10)]
  }

  /** Rust's `{:02}`: at least two digits, zero-padded. */
  function Pad2(n: nat): (r: string)
    ensures |r| >= 2 && IsDigits(r)
  {
    if n < 10 then "0" + NatToString(n) else NatToString(n)
  }

  // ---------------------------------------------------------------- floats

  /** An `f64` kept as the decimal text it was read from. Arithmetic on it
      is never needed; only parsing and writing it back are. */
  datatype F64 = F64(literal: string)

  /** The unsigned decimal forms `str::parse::<f64>` accepts without an
      exponent: digits with at most one `.`, and at least one digit. */
  predicate IsDecimalLiteral(s: string) {
    (forall i :: 0 <= i < |s| ==> IsAsciiDigit(s[i]) || s[i] == '.')
    && (forall i, j :: 0 <= i < j < |s| ==> !(s[i] == '.' && s[j] == '.'))
    && (exists i :: 0 <= i < |s| && IsAsciiDigit(s[i]))
  }

  /** `str::parse::<f64>().ok()` on the decimal forms above. */
  function ParseF64(s: string): (r: Option<F64>)
    ensures r.Some? <==> IsDecimalLiteral(s)
    ensures r.Some? ==> r.value.literal == s && s != []
  {
    if IsDecimalLiteral(s) then Some(F64(s)) else None
  }

  // ---------------------------------------------------------------- lemmas

  lemma IndexOfPrefix(a: string, c: char, b: string)
    requires c !in a
    ensures IndexOf(a + [c] + b, c) == Some(|a|)
  {
    var s := a + [c] + b;
    assert s[..|a|] == a;
    assert s[|a|] == c;
  }

  lemma IndexOfAbsent(s: string, c: char)
    requires c !in s
    ensures IndexOf(s, c) == None
  {
  }

  /** Splitting what was joined with a separator absent from every piece
      gives the pieces back. */
  lemma {:induction false} SplitJoin(parts: seq<string>, c: char)
    requires |parts| >= 1
    requires forall i :: 0 <= i < |parts| ==> c !in parts[i]
    ensures Split(Join(parts, [c]), c) == parts
  {
    if |parts| == 1 {
      IndexOfAbsent(parts[0], c);
    } else {
      var rest := Join(parts[1..], [c]);
      assert Join(parts, [c]) == parts[0] + [c] + rest;
      SplitJoin(parts[1..], c);
      SplitFirstPiece(parts[0], c, rest);
      assert parts == [parts[0]] + parts[1..];
    }
  }

  /** `split` cuts at the first separator. */
  lemma SplitFirstPiece(a: string, c: char, b: string)
    requires c !in a
    ensures Split(a + [c] + b, c) == [a] + Split(b, c)
  {
    var s := a + [c] + b;
    IndexOfPrefix(a, c, b);
    assert s[..|a|] == a;
    assert s[|a| + 1..] == b;
  }

  /** `splitn` with room for more pieces cuts at the first separator. */
  lemma SplitNFirstPiece(a: string, n: nat, c: char, b: string)
    requires n > 1 && c !in a
    ensures SplitN(a + [c] + b, n, c) == [a] + SplitN(b, n - 1, c)
  {
    var s := a + [c] + b;
    IndexOfPrefix(a, c, b);
    assert s[..|a|] == a;
    assert s[|a| + 1..] == b;
  }

  /** Joining the pieces of `splitn` with the separator gives the text back. */
  lemma {:induction false} SplitNJoin(s: string, n: nat, c: char)
    requires n >= 1
    ensures Join(SplitN(s, n, c), [c]) == s
    decreases n
  {
    if n > 1 && IndexOf(s, c).Some? {
      var i := IndexOf(s, c).value;
      SplitNJoin(s[i + 1..], n - 1, c);
      SplitNJoinStep(s, n, c, i);
    }
  }

  lemma SplitNJoinStep(s: string, n: nat, c: char, i: nat)
    requires n > 1 && IndexOf(s, c) == Some(i)
    requires Join(SplitN(s[i + 1..], n - 1, c), [c]) == s[i + 1..]
    ensures Join(SplitN(s, n, c), [c]) == s
  {
    var rest := SplitN(s[i + 1..], n - 1, c);
    SplitNUnfold(s, n, c, i);
    JoinCons(s[..i], rest, [c]);
    assert s[i] == c;
    Reassemble(s, i);
  }

  lemma SplitNUnfold(s: string, n: nat, c: char, i: nat)
    requires n > 1 && IndexOf(s, c) == Some(i)
    ensures SplitN(s, n, c) == [s[..i]] + SplitN(s[i + 1..], n - 1, c)
  {
  }

  lemma Reassemble(s: string, i: nat)
    requires i < |s|
    ensures s[..i] + [s[i]] + s[i + 1..] == s
  {
  }

  /** A line that can be written and read back by `Lines` unchanged. */
  predicate IsPlainLine(l: string) {
    '\n' !in l && (l == [] || l[|l| - 1] != '\r')
  }

  /** Reading back lines joined with `\n`: exact as long as no line holds a
      newline or ends in `\r`, and the last line is not empty. */
  lemma {:induction false} LinesJoin(ls: seq<string>)
    requires forall i :: 0 <= i < |ls| ==> IsPlainLine(ls[i])
    requires |ls| > 0 ==> ls[|ls| - 1] != []
    ensures Lines(Join(ls, "\n")) == ls
  {
    if |ls| == 0 {
    } else if |ls| == 1 {
      IndexOfAbsent(ls[0], '\n');
    } else {
      var rest := Join(ls[1..], "\n");
      assert Join(ls, "\n") == ls[0] + ['\n'] + rest;
      IndexOfPrefix(ls[0], '\n', rest);
      var s := ls[0] + ['\n'] + rest;
      assert s[..|ls[0]|] == ls[0];
      assert s[|ls[0]| + 1..] == rest;
      LinesJoin(ls[1..]);
      assert ls == [ls[0]] + ls[1..];
    }
  }

  lemma JoinNonEmpty(parts: seq<string>, sep: string)
    requires |parts| > 0 && parts[0] != []
    ensures Join(parts, sep) != []
  {
  }

  lemma JoinCons(x: string, rest: seq<string>, sep: string)
    requires |rest| >= 1
    ensures Join([x] + rest, sep) == x + sep + Join(rest, sep)
  {
    assert ([x] + rest)[1..] == rest;
  }

  /** A join opens with its first piece. */
  lemma JoinStartsWith(parts: seq<string>, sep: string)
    requires |parts| > 0
    ensures StartsWith(Join(parts, sep), parts[0])
  {
    if |parts| > 1 {
      assert Join(parts, sep)[..|parts[0]|] == parts[0];
    }
  }

  predicate AllWhitespace(s: string) {
    forall i :: 0 <= i < |s| ==> IsWhitespace(s[i])
  }

  predicate NoWhitespace(s: string) {
    forall i :: 0 <= i < |s| ==> !IsWhitespace(s[i])
  }

  lemma {:induction false} TrimStartSkips(ws: string, t: string)
    requires AllWhitespace(ws)
    requires t == [] || !IsWhitespace(t[0])
    ensures TrimStart(ws + t) == t
  {
    if ws != [] {
      assert (ws + t)[1..] == ws[1..] + t;
      TrimStartSkips(ws[1..], t);
    }
  }

  lemma {:induction false} TokenLengthOf(w: string, rest: string)
    requires NoWhitespace(w)
    requires rest == [] || IsWhitespace(rest[0])
    ensures TokenLength(w + rest) == |w|
  {
    if w != [] {
      assert (w + rest)[1..] == w[1..] + rest;
      TokenLengthOf(w[1..], rest);
    }
  }

  /** `split_whitespace` ignores a leading whitespace character. */
  lemma SplitSkipsWhitespace(c: char, s: string)
    requires IsWhitespace(c)
    ensures SplitWhitespace([c] + s) == SplitWhitespace(s)
  {
    assert ([c] + s)[1..] == s;
    assert TrimStart([c] + s) == TrimStart(s);
  }

  /** `split_whitespace` peels off a leading word. */
  lemma SplitLeadingToken(w: string, tail: string)
    requires w != [] && NoWhitespace(w)
    requires tail == [] || IsWhitespace(tail[0])
    ensures SplitWhitespace(w + tail) == [w] + SplitWhitespace(tail)
  {
    var s := w + tail;
    assert s[0] == w[0];
    assert TrimStart(s) == s;
    TokenLengthOf(w, tail);
    assert s[..|w|] == w;
    assert s[|w|..] == tail;
  }

  /** `lines` splits at the first newline. */
  lemma LinesStep(a: string, b: string)
    requires '\n' !in a
    ensures Lines(a + "\n" + b) == [StripCarriageReturn(a)] + Lines(b)
  {
    IndexOfPrefix(a, '\n', b);
    var s := a + "\n" + b;
    assert s[..|a|] == a;
    assert s[|a| + 1..] == b;
  }

  lemma LinesSingle(a: string)
    requires '\n' !in a && a != []
    ensures Lines(a) == [a]
  {
    IndexOfAbsent(a, '\n');
  }

  /** A prefix must agree on the first character. */
  lemma FirstCharDiffers(s: string, p: string)
    requires s != [] && p != [] && s[0] != p[0]
    ensures !StartsWith(s, p)
  {
    if |p| <= |s| {
      assert s[..|p|][0] == s[0];
    }
  }

  /** A string lacking the first character of `p` does not contain `p`. */
  lemma MissingFirstChar(s: string, p: string)
    requires p != [] && forall i :: 0 <= i < |s| ==> s[i] != p[0]
    ensures !Contains(s, p)
  {
    forall i | 0 <= i <= |s|
      ensures !StartsWith(s[i..], p)
    {
      if |p| <= |s| - i {
        assert s[i..][..|p|][0] == s[i];
      }
    }
  }

  /** Leading whitespace and nothing else is trimmed away. */
  lemma TrimIndented(ws: string, body: string)
    requires AllWhitespace(ws)
    requires body != [] && !IsWhitespace(body[0]) && !IsWhitespace(body[|body| - 1])
    ensures Trim(ws + body) == body
  {
    TrimStartSkips(ws, body);
  }

  /** `find` reports an occurrence when no earlier position holds the
      pattern's first character. */
  lemma FindAt(s: string, p: string, k: nat)
    requires k <= |s| && p != [] && StartsWith(s[k..], p)
    requires forall j :: 0 <= j < k ==> s[j] != p[0]
    ensures Find(s, p) == Some(k)
  {
    forall j | 0 <= j < k
      ensures !StartsWith(s[j..], p)
    {
      FirstCharDiffers(s[j..], p);
    }
  }

  /** A string with no ASCII capital is its own lower-case form. */
  lemma LowerAlready(s: string)
    requires forall i :: 0 <= i < |s| ==> !('A' <= s[i] <= 'Z')
    ensures ToLower(s) == s
  {
  }
}
