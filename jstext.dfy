/**
 * The few JavaScript string operations the site relies on: `trim`, the
 * `replace(/\D/g, '')` digit filter, and `split`/`join` on one character.
 */
module JsText {

  /** The code points ECMAScript counts as WhiteSpace or LineTerminator; `trim` strips exactly these. */
  predicate IsSpace(c: char) {
    || c == '\U{0009}' || c == '\U{000A}' || c == '\U{000B}' || c == '\U{000C}' || c == '\U{000D}'
    || c == '\U{0020}' || c == '\U{00A0}' || c == '\U{1680}'
    || ('\U{2000}' <= c <= '\U{200A}')
    || c == '\U{2028}' || c == '\U{2029}' || c == '\U{202F}' || c == '\U{205F}'
    || c == '\U{3000}' || c == '\U{FEFF}'
  }

  /** Drops the leading white space. */
  function TrimStart(s: string): string {
    if |s| > 0 && IsSpace(s[0]) then TrimStart(s[1..]) else s
  }

  /** What `TrimStart` leaves is a suffix that does not start with a space; everything before it is space. */
  lemma {:induction false} TrimStartIsSuffix(s: string)
    ensures var r := TrimStart(s);
            && |r| <= |s| && r == s[|s| - |r|..]
            && (forall i :: 0 <= i < |s| - |r| ==> IsSpace(s[i]))
            && (r == [] || !IsSpace(r[0]))
  {
    if |s| > 0 && IsSpace(s[0]) {
      TrimStartIsSuffix(s[1..]);
    }
  }

  /** Drops the trailing white space. */
  function TrimEnd(s: string): string {
    if |s| > 0 && IsSpace(s[|s| - 1]) then TrimEnd(s[..|s| - 1]) else s
  }

  /** What `TrimEnd` leaves is a prefix that does not end with a space; everything after it is space. */
  lemma {:induction false} TrimEndIsPrefix(s: string)
    ensures var r := TrimEnd(s);
            && |r| <= |s| && r == s[..|r|]
            && (forall i :: |r| <= i < |s| ==> IsSpace(s[i]))
            && (r == [] || !IsSpace(r[|r| - 1]))
  {
    if |s| > 0 && IsSpace(s[|s| - 1]) {
      TrimEndIsPrefix(s[..|s| - 1]);
    }
  }

  /** How many white-space characters `s` starts with. */
  function LeadingSpaces(s: string): nat {
    TrimStartIsSuffix(s);
    |s| - |TrimStart(s)|
  }

  /** `String.prototype.trim`. */
  function Trim(s: string): string {
    TrimEnd(TrimStart(s))
  }

  /**
   * `trim` keeps the slice of `s` left once the white space at both ends is
   * gone; the result is empty exactly when `s` is all white space.
   */
  lemma TrimIsSlice(s: string)
    ensures var r := Trim(s);
            && LeadingSpaces(s) + |r| <= |s| && r == s[LeadingSpaces(s)..LeadingSpaces(s) + |r|]
            && (forall i :: 0 <= i < LeadingSpaces(s) ==> IsSpace(s[i]))
            && (forall i :: LeadingSpaces(s) + |r| <= i < |s| ==> IsSpace(s[i]))
            && (r == [] <==> forall i :: 0 <= i < |s| ==> IsSpace(s[i]))
            && (r != [] ==> !IsSpace(r[0]) && !IsSpace(r[|r| - 1]))
  {
    var t := TrimStart(s);
    TrimStartIsSuffix(s);
    TrimEndIsPrefix(t);
    var lo := |s| - |t|;
    assert forall i :: lo <= i < |s| ==> s[i] == t[i - lo];
  }

  /** Trimming twice is trimming once. */
  lemma TrimIdempotent(s: string)
    ensures Trim(Trim(s)) == Trim(s)
  {
    var r := Trim(s);
    TrimIsSlice(s);
    if r != [] {
      assert TrimStart(r) == r;
      assert TrimEnd(r) == r;
    } else {
      assert TrimStart(r) == r;
    }
  }

  predicate IsDigit(c: char) { '0' <= c <= '9' }

  /** `s.replace(/\D/g, '')`: the ASCII digits of `s`, in their order. */
  function KeepDigits(s: string): (r: string)
    ensures |r| <= |s|
    ensures forall i :: 0 <= i < |r| ==> IsDigit(r[i])
    ensures (forall i :: 0 <= i < |s| ==> IsDigit(s[i])) ==> r == s
    ensures (forall i :: 0 <= i < |s| ==> !IsDigit(s[i])) ==> r == []
  {
    if s == [] then [] else (if IsDigit(s[0]) then [s[0]] else []) + KeepDigits(s[1..])
  }

  /** The filter works character by character, so it distributes over concatenation. */
  lemma {:induction false} KeepDigitsConcat(a: string, b: string)
    ensures KeepDigits(a + b) == KeepDigits(a) + KeepDigits(b)
  {
    if a == [] {
      assert a + b == b;
    } else {
      assert (a + b)[1..] == a[1..] + b;
      KeepDigitsConcat(a[1..], b);
    }
  }

  /** Position of the first `c` in `s`. */
  function IndexOf(s: string, c: char): (i: nat)
    requires c in s
    ensures i < |s| && s[i] == c && c !in s[..i]
  {
    if s[0] == c then 0 else 1 + IndexOf(s[1..], c)
  }

  /** `Array.prototype.join(sep)` for a non-empty list of strings. */
  function Join(parts: seq<string>, sep: char): string
    requires |parts| > 0
  {
    if |parts| == 1 then parts[0] else parts[0] + [sep] + Join(parts[1..], sep)
  }

  lemma Assoc<T>(a: seq<T>, b: seq<T>, c: seq<T>)
    ensures a + (b + c) == a + b + c
  {
  }

  /** Joining one more part adds the separator and that part at the end. */
  lemma {:induction false} JoinSnoc(parts: seq<string>, last: string, sep: char)
    requires |parts| > 0
    ensures Join(parts + [last], sep) == Join(parts, sep) + [sep] + last
    decreases |parts|
  {
    var ps := parts + [last];
    if |parts| == 1 {
      assert ps[1..] == [last];
    } else {
      assert ps[1..] == parts[1..] + [last];
      JoinSnoc(parts[1..], last, sep);
      Assoc(parts[0] + [sep], Join(parts[1..], sep), [sep] + last);
      Assoc(parts[0] + [sep] + Join(parts[1..], sep), [sep], last);
      Assoc(Join(parts[1..], sep), [sep], last);
    }
  }

  /** Six parts joined: each part followed by the separator, but the last. */
  lemma JoinSix(a: string, b: string, c: string, d: string, e: string, f: string, sep: char)
    ensures Join([a, b, c, d, e, f], sep) == a + [sep] + b + [sep] + c + [sep] + d + [sep] + e + [sep] + f
  {
    var ps := [a, b, c, d, e, f];
    assert ps[5..] == [f];
    assert ps[4..][1..] == ps[5..];
    assert ps[3..][1..] == ps[4..];
    assert ps[2..][1..] == ps[3..];
    assert ps[1..][1..] == ps[2..];
    var j4 := e + [sep] + f;
    var j3 := d + [sep] + j4;
    var j2 := c + [sep] + j3;
    var j1 := b + [sep] + j2;
    assert Join(ps[4..], sep) == j4;
    assert Join(ps[3..], sep) == j3;
    assert Join(ps[2..], sep) == j2;
    assert Join(ps[1..], sep) == j1;
    Assoc(a + [sep], b + [sep], j2);
    Assoc(a + [sep] + b + [sep], c + [sep], j3);
    Assoc(a + [sep] + b + [sep] + c + [sep], d + [sep], j4);
  }

  /** `String.prototype.split(sep)`: the pieces between the occurrences of `sep`. */
  function Split(s: string, sep: char): (parts: seq<string>)
    ensures |parts| > 0
    ensures forall i :: 0 <= i < |parts| ==> sep !in parts[i]
    decreases |s|
  {
    if sep in s then
      var i := IndexOf(s, sep);
      [s[..i]] + Split(s[i + 1..], sep)
    else
      [s]
  }

  /** Splitting cuts at the first separator: a separator-free head is the first piece. */
  lemma SplitAtFirst(head: string, tail: string, sep: char)
    requires sep !in head
    ensures Split(head + [sep] + tail, sep) == [head] + Split(tail, sep)
  {
    var s := head + [sep] + tail;
    assert s[|head|] == sep;
    var i := IndexOf(s, sep);
    assert i == |head|;
    assert s[..i] == head;
    assert s[i + 1..] == tail;
  }

  /**
   * Splitting a join of separator-free parts followed by the separator and
   * any text gives back those parts, then the pieces of that text.
   */
  lemma {:induction false} SplitAfterJoin(parts: seq<string>, rest: string, sep: char)
    requires |parts| > 0
    requires forall i :: 0 <= i < |parts| ==> sep !in parts[i]
    ensures Split(Join(parts, sep) + [sep] + rest, sep) == parts + Split(rest, sep)
    decreases |parts|
  {
    if |parts| == 1 {
      SplitAtFirst(parts[0], rest, sep);
    } else {
      var tail := Join(parts[1..], sep) + [sep] + rest;
      JoinThenRest(parts, rest, sep);
      SplitAtFirst(parts[0], tail, sep);
      SplitAfterJoin(parts[1..], rest, sep);
      ConsAppend(parts, Split(rest, sep));
    }
  }

  /** A join of two or more parts, then more text, is the first part, the separator and the rest. */
  lemma JoinThenRest(parts: seq<string>, rest: string, sep: char)
    requires |parts| > 1
    ensures Join(parts, sep) + [sep] + rest == parts[0] + [sep] + (Join(parts[1..], sep) + [sep] + rest)
  {
    Assoc(parts[0] + [sep], Join(parts[1..], sep), [sep] + rest);
    Assoc(Join(parts[1..], sep), [sep], rest);
  }

  lemma ConsAppend<T>(s: seq<T>, t: seq<T>)
    requires |s| > 0
    ensures s + t == [s[0]] + (s[1..] + t)
  {
    assert s == [s[0]] + s[1..];
  }

  /** Splitting undoes joining whenever no piece contains the separator. */
  lemma {:induction false} SplitJoin(parts: seq<string>, sep: char)
    requires |parts| > 0
    requires forall i :: 0 <= i < |parts| ==> sep !in parts[i]
    ensures Split(Join(parts, sep), sep) == parts
  {
    if |parts| > 1 {
      var p, rest := parts[0], Join(parts[1..], sep);
      var s := p + [sep] + rest;
      assert s[|p|] == sep;
      var i := IndexOf(s, sep);
      assert i == |p|;
      assert s[..i] == p;
      assert s[i + 1..] == rest;
      SplitJoin(parts[1..], sep);
    }
  }
}
