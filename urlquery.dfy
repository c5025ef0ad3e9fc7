/**
 * The part of the URL Standard's `URLSearchParams` the site uses: `get` on the
 * page's own query, `set` on a fresh list, and the
 * application/x-www-form-urlencoded serializer (section 5.2 of the WHATWG URL
 * Standard). Percent-encoding itself is a parameter `enc`.
 */
module UrlQuery {
  import opened Wrappers
  import opened JsText

  /** One name-value entry of a query, already percent-decoded. */
  type Pair = (string, string)

  /** The number of entries named `name`. */
  function Count(s: seq<Pair>, name: string): nat {
    if s == [] then 0 else (if s[0].0 == name then 1 else 0) + Count(s[1..], name)
  }

  /** `URLSearchParams.get`: the value of the first entry named `name`, or nothing. */
  function Get(s: seq<Pair>, name: string): (r: Option<string>)
    ensures r.None? <==> Count(s, name) == 0
    ensures r.Some? ==> (name, r.value) in s
  {
    if s == [] then None
    else if s[0].0 == name then Some(s[0].1)
    else Get(s[1..], name)
  }

  /** The entry `Get` picks is the first one with that name. */
  lemma {:induction false} GetFirst(s: seq<Pair>, name: string, i: nat)
    requires i < |s| && s[i].0 == name
    requires forall j :: 0 <= j < i ==> s[j].0 != name
    ensures Get(s, name) == Some(s[i].1)
  {
    if i > 0 {
      GetFirst(s[1..], name, i - 1);
    }
  }

  /** The entries not named `name`, in their order. */
  function RemoveAll(s: seq<Pair>, name: string): (r: seq<Pair>)
    ensures Count(r, name) == 0
    ensures forall n :: n != name ==> Get(r, n) == Get(s, n) && Count(r, n) == Count(s, n)
  {
    if s == [] then []
    else if s[0].0 == name then RemoveAll(s[1..], name)
    else [s[0]] + RemoveAll(s[1..], name)
  }

  /** Gives the first entry named `name` the value `value` and drops the later ones. */
  function ReplaceFirst(s: seq<Pair>, name: string, value: string): (r: seq<Pair>)
    ensures Count(s, name) > 0 ==> Get(r, name) == Some(value) && Count(r, name) == 1
    ensures Count(s, name) == 0 ==> r == s
    ensures forall n :: n != name ==> Get(r, n) == Get(s, n) && Count(r, n) == Count(s, n)
  {
    if s == [] then []
    else if s[0].0 == name then [(name, value)] + RemoveAll(s[1..], name)
    else [s[0]] + ReplaceFirst(s[1..], name, value)
  }

  /**
   * `URLSearchParams.set`: afterwards `name` has exactly one entry, holding
   * `value` (in place of the first old one, or appended when there was none),
   * and every other name reads as before.
   */
  function SetEntry(s: seq<Pair>, name: string, value: string): (r: seq<Pair>)
    ensures Get(r, name) == Some(value) && Count(r, name) == 1
    ensures forall n :: n != name ==> Get(r, n) == Get(s, n) && Count(r, n) == Count(s, n)
    ensures Count(s, name) == 0 ==> r == s + [(name, value)]
  {
    if Count(s, name) > 0 then ReplaceFirst(s, name, value)
    else
      AppendFresh(s, name, value);
      s + [(name, value)]
  }

  /** Appending an entry whose name is new makes it the only one of that name. */
  lemma AppendFresh(s: seq<Pair>, name: string, value: string)
    requires Count(s, name) == 0
    ensures Get(s + [(name, value)], name) == Some(value) && Count(s + [(name, value)], name) == 1
    ensures forall n :: n != name ==> Get(s + [(name, value)], n) == Get(s, n) && Count(s + [(name, value)], n) == Count(s, n)
  {
    forall n
      ensures Get(s + [(name, value)], n) == (if n == name then Some(value) else Get(s, n))
      ensures Count(s + [(name, value)], n) == Count(s, n) + (if n == name then 1 else 0)
    {
      CountAppend(s, (name, value), n);
      GetAppend(s, (name, value), n);
    }
  }

  /** Appending adds its entry's name once and leaves the other counts alone. */
  lemma {:induction false} CountAppend(s: seq<Pair>, p: Pair, n: string)
    ensures Count(s + [p], n) == Count(s, n) + (if p.0 == n then 1 else 0)
  {
    if s == [] {
      assert [p][1..] == [];
    } else {
      assert (s + [p])[1..] == s[1..] + [p];
      CountAppend(s[1..], p, n);
    }
  }

  /** Getting from `s + [p]` only reaches `p` when `s` has no entry of that name. */
  lemma {:induction false} GetAppend(s: seq<Pair>, p: Pair, n: string)
    ensures Get(s + [p], n) == if Count(s, n) > 0 then Get(s, n) else if p.0 == n then Some(p.1) else None
  {
    if s != [] {
      assert (s + [p])[1..] == s[1..] + [p];
      GetAppend(s[1..], p, n);
    }
  }

  /** One serialized entry: the encoded name, `=`, the encoded value. */
  function EntryText(p: Pair, enc: string -> string): string {
    enc(p.0) + "=" + enc(p.1)
  }

  function Entries(s: seq<Pair>, enc: string -> string): (r: seq<string>)
    ensures |r| == |s|
    ensures forall i :: 0 <= i < |s| ==> r[i] == EntryText(s[i], enc)
  {
    if s == [] then [] else [EntryText(s[0], enc)] + Entries(s[1..], enc)
  }

  /** The urlencoded serializer: the entries' texts joined with `&`, or "" for no entries. */
  function Serialize(s: seq<Pair>, enc: string -> string): string {
    if s == [] then "" else Join(Entries(s, enc), '&')
  }

  /** An entry's text splits at `=` into the encoded name and value when the encoder escapes `=`. */
  lemma EntrySplits(p: Pair, enc: string -> string)
    requires '=' !in enc(p.0) && '=' !in enc(p.1)
    ensures Split(EntryText(p, enc), '=') == [enc(p.0), enc(p.1)]
  {
    var parts := [enc(p.0), enc(p.1)];
    assert Join(parts[1..], '=') == enc(p.1);
    assert Join(parts, '=') == EntryText(p, enc);
    SplitJoin(parts, '=');
  }

  /**
   * When the encoder escapes `&` and `=` (as the urlencoded percent-encode set
   * does), the serialized query splits back into one piece per entry, and each
   * piece into the encoded name and the encoded value.
   */
  lemma SerializeSplits(s: seq<Pair>, enc: string -> string)
    requires s != []
    requires forall x :: '&' !in enc(x) && '=' !in enc(x)
    ensures Split(Serialize(s, enc), '&') == Entries(s, enc)
    ensures forall i :: 0 <= i < |s| ==> Split(Entries(s, enc)[i], '=') == [enc(s[i].0), enc(s[i].1)]
  {
    var es := Entries(s, enc);
    forall i | 0 <= i < |es| ensures '&' !in es[i] {
      var a, b := enc(s[i].0), enc(s[i].1);
      assert es[i] == a + "=" + b;
      assert '&' !in a && '&' !in b;
    }
    SplitJoin(es, '&');
    forall i | 0 <= i < |s| ensures Split(es[i], '=') == [enc(s[i].0), enc(s[i].1)] {
      EntrySplits(s[i], enc);
    }
  }

  /** A `URLSearchParams` object: its entry list, which `Set` rewrites in place. */
  class SearchParams {
    var entries: seq<Pair>

    /** `new URLSearchParams()`: no entries. */
    constructor ()
      ensures entries == []
    {
      entries := [];
    }

    method Set(name: string, value: string)
      modifies this
      ensures entries == SetEntry(old(entries), name, value)
    {
      entries := SetEntry(entries, name, value);
    }

    /** `URLSearchParams.toString`. */
    function ToString(enc: string -> string): string
      reads this
    {
      Serialize(entries, enc)
    }
  }
}
