/**
 * The WhatsApp deep link that both the React page (`buildWhatsUrl`) and the
 * static page (`buildWhatsAppUrl`) build: `https://wa.me/<number>?<query>`,
 * whose query holds `text` and then the attribution (UTM) parameters of the
 * current page that have a non-empty value, copied unchanged.
 */
module WhatsLink {
  import opened Wrappers
  import opened UrlQuery
  import opened JsText

  const Base := "https://wa.me/"

  /** The attribution parameters, in the order they are looked up and copied. */
  const UtmKeys: seq<string> := ["utm_source", "utm_medium", "utm_campaign", "utm_term", "utm_content"]

  /** `message || fallback`: a missing or empty message gives way to the fallback text. */
  function MessageOr(message: Option<string>, fallback: string): (text: string)
    ensures message.None? || message.value == "" ==> text == fallback
    ensures message.Some? && message.value != "" ==> text == message.value
  {
    match message
    case Some(m) => if m != "" then m else fallback
    case None => fallback
  }

  /** The names of a list of entries, in order. */
  function Names(s: seq<Pair>): (r: seq<string>)
    ensures |r| == |s| && forall i :: 0 <= i < |s| ==> r[i] == s[i].0
  {
    seq(|s|, i requires 0 <= i < |s| => s[i].0)
  }

  /** `a` is `b` with some elements left out and the rest kept in order. */
  ghost predicate IsSubsequence(a: seq<string>, b: seq<string>)
    decreases |b|
  {
    if a == [] then true
    else if b == [] then false
    else (a[|a| - 1] == b[|b| - 1] && IsSubsequence(a[..|a| - 1], b[..|b| - 1]))
         || IsSubsequence(a, b[..|b| - 1])
  }

  /** The attribution entries copied for `keys`, in the order of `keys`. */
  function UtmPairs(keys: seq<string>, page: seq<Pair>): seq<Pair> {
    if keys == [] then []
    else
      var k := keys[|keys| - 1];
      var v := Get(page, k);
      UtmPairs(keys[..|keys| - 1], page) + (if v.Some? && v.value != "" then [(k, v.value)] else [])
  }

  /**
   * A key is copied, with its first page value, exactly when the page has a
   * non-empty value for it; every copied entry is an entry of the page.
   */
  lemma {:induction false} UtmPairsCopies(keys: seq<string>, page: seq<Pair>)
    ensures var r := UtmPairs(keys, page);
            && (forall i :: 0 <= i < |r| ==> r[i].0 in keys && r[i].1 != "" && Get(page, r[i].0) == Some(r[i].1))
            && (forall i :: 0 <= i < |r| ==> r[i] in page)
            && (forall k :: k in keys && Get(page, k).Some? && Get(page, k).value != "" ==> (k, Get(page, k).value) in r)
  {
    if keys != [] {
      var k, front := keys[|keys| - 1], keys[..|keys| - 1];
      UtmPairsCopies(front, page);
      assert forall n :: n in front ==> n in keys;
      assert forall n :: n in keys ==> n in front || n == k;
    }
  }

  /** Nothing outside `keys` is copied. */
  lemma {:induction false} UtmPairsOnlyKeys(keys: seq<string>, page: seq<Pair>, n: string)
    requires n !in keys
    ensures Count(UtmPairs(keys, page), n) == 0
  {
    if keys != [] {
      var k, front := keys[|keys| - 1], keys[..|keys| - 1];
      var v := Get(page, k);
      assert n !in front && k != n;
      UtmPairsOnlyKeys(front, page, n);
      if v.Some? && v.value != "" {
        CountAppend(UtmPairs(front, page), (k, v.value), n);
      } else {
        assert UtmPairs(keys, page) == UtmPairs(front, page);
      }
    }
  }

  /** The copied keys keep the fixed order of `keys`. */
  lemma {:induction false} UtmPairsInOrder(keys: seq<string>, page: seq<Pair>)
    ensures IsSubsequence(Names(UtmPairs(keys, page)), keys)
  {
    if keys != [] {
      var k, front := keys[|keys| - 1], keys[..|keys| - 1];
      var v := Get(page, k);
      var u := UtmPairs(front, page);
      UtmPairsInOrder(front, page);
      if v.Some? && v.value != "" {
        var a := Names(u + [(k, v.value)]);
        assert a[..|a| - 1] == Names(u);
      } else {
        assert UtmPairs(keys, page) == u;
        SubsequenceOfPrefix(Names(u), front, k);
      }
    }
  }

  lemma SubsequenceOfPrefix(a: seq<string>, b: seq<string>, x: string)
    requires IsSubsequence(a, b)
    ensures IsSubsequence(a, b + [x])
  {
    assert (b + [x])[..|b|] == b;
  }

  /** The query of the deep link: `text` first, then the copied attribution entries. */
  function LinkPairs(message: Option<string>, fallback: string, page: seq<Pair>): seq<Pair> {
    [("text", MessageOr(message, fallback))] + UtmPairs(UtmKeys, page)
  }

  /** The deep link: the fixed base, the number, `?` and the serialized query. */
  function DeepLink(number: string, fallback: string, message: Option<string>,
                    page: seq<Pair>, enc: string -> string): string
  {
    Base + number + "?" + Serialize(LinkPairs(message, fallback, page), enc)
  }

  /**
   * With an encoder that escapes `&` and `=`, the link's query reads back
   * piece by piece: first the encoded `text` and its value, then one piece
   * per copied attribution entry, in order.
   */
  lemma DeepLinkQuery(number: string, fallback: string, message: Option<string>,
                      page: seq<Pair>, enc: string -> string)
    requires forall x :: '&' !in enc(x) && '=' !in enc(x)
    ensures var ps := LinkPairs(message, fallback, page);
            var pieces := Split(Serialize(ps, enc), '&');
            var utm := UtmPairs(UtmKeys, page);
            && DeepLink(number, fallback, message, page, enc) == Base + number + "?" + Serialize(ps, enc)
            && |pieces| == 1 + |utm|
            && Split(pieces[0], '=') == [enc("text"), enc(MessageOr(message, fallback))]
            && forall i :: 0 <= i < |utm| ==> Split(pieces[i + 1], '=') == [enc(utm[i].0), enc(utm[i].1)]
  {
    var ps := LinkPairs(message, fallback, page);
    SerializeSplits(ps, enc);
    var utm := UtmPairs(UtmKeys, page);
    assert forall i :: 0 <= i < |utm| ==> ps[i + 1] == utm[i];
  }

  /** No key is `text`, and no key repeats an earlier one. */
  predicate FreshKeys(keys: seq<string>) {
    forall i :: 0 <= i < |keys| ==> keys[i] != "text" && keys[i] !in keys[..i]
  }

  /** The attribution keys are fresh. */
  lemma UtmKeysFresh()
    ensures FreshKeys(UtmKeys)
  {
    assert UtmKeys[0][4] == 's' && UtmKeys[1][4] == 'm' && UtmKeys[2][4] == 'c' && UtmKeys[3][4] == 't';
    assert UtmKeys[2][5] == 'a' && UtmKeys[4][5] == 'o';
  }

  /**
   * One step of the builder's loop: the key about to be looked up is not yet
   * among the entries, and copying it (or not) extends the copied prefix.
   */
  lemma BuildStep(keys: seq<string>, text: string, page: seq<Pair>, i: nat)
    requires FreshKeys(keys) && i < |keys|
    ensures var before := [("text", text)] + UtmPairs(keys[..i], page);
            var after := [("text", text)] + UtmPairs(keys[..i + 1], page);
            var v := Get(page, keys[i]);
            && (v.Some? && v.value != "" ==> SetEntry(before, keys[i], v.value) == after)
            && (!(v.Some? && v.value != "") ==> before == after)
  {
    var u := UtmPairs(keys[..i], page);
    var v := Get(page, keys[i]);
    assert keys[..i + 1][..i] == keys[..i];
    assert UtmPairs(keys[..i + 1], page) == u + (if v.Some? && v.value != "" then [(keys[i], v.value)] else []);
    UtmPairsOnlyKeys(keys[..i], page, keys[i]);
    assert ([("text", text)] + u)[1..] == u;
    assert Count([("text", text)] + u, keys[i]) == 0;
    if v.Some? && v.value != "" {
      assert [("text", text)] + u + [(keys[i], v.value)] == [("text", text)] + (u + [(keys[i], v.value)]);
    }
  }

  /**
   * The builder's body for any fresh list of keys: a fresh `URLSearchParams`,
   * `set` of `text`, then one `set` per key whose page value is non-empty.
   */
  method BuildWith(number: string, text: string, keys: seq<string>, page: seq<Pair>, enc: string -> string)
    returns (url: string)
    requires FreshKeys(keys)
    ensures url == Base + number + "?" + Serialize([("text", text)] + UtmPairs(keys, page), enc)
  {
    var params := new SearchParams();
    params.Set("text", text);
    for i := 0 to |keys|
      invariant params.entries == [("text", text)] + UtmPairs(keys[..i], page)
    {
      var k := keys[i];
      var v := Get(page, k);
      BuildStep(keys, text, page, i);
      if v.Some? && v.value != "" {
        params.Set(k, v.value);
      }
    }
    assert keys[..|keys|] == keys;
    url := Base + number + "?" + params.ToString(enc);
  }

  /** The builder as the source writes it, over the five attribution keys; it builds the deep link. */
  method BuildLink(number: string, fallback: string, message: Option<string>,
                   page: seq<Pair>, enc: string -> string) returns (url: string)
    ensures url == DeepLink(number, fallback, message, page, enc)
  {
    UtmKeysFresh();
    url := BuildWith(number, MessageOr(message, fallback), UtmKeys, page, enc);
  }

  /** The page query of the worked example: a source and a campaign, nothing else. */
  lemma AdsSpringExample()
    ensures UtmPairs(UtmKeys, [("utm_source", "ads"), ("utm_campaign", "spring")])
            == [("utm_source", "ads"), ("utm_campaign", "spring")]
  {
    var page := [("utm_source", "ads"), ("utm_campaign", "spring")];
    assert Get(page, "utm_source") == Some("ads");
    assert Get(page, "utm_medium") == None;
    assert Get(page, "utm_campaign") == Some("spring");
    assert Get(page, "utm_term") == None;
    assert Get(page, "utm_content") == None;
    assert UtmKeys[..1] == ["utm_source"];
    assert UtmKeys[..2][..1] == UtmKeys[..1];
    assert UtmKeys[..3][..2] == UtmKeys[..2];
    assert UtmKeys[..4][..3] == UtmKeys[..3];
    assert UtmKeys[..4] == UtmKeys[..|UtmKeys| - 1];
    assert UtmPairs(UtmKeys[..1], page) == [("utm_source", "ads")];
    assert UtmPairs(UtmKeys[..2], page) == [("utm_source", "ads")];
    assert UtmPairs(UtmKeys[..3], page) == [("utm_source", "ads"), ("utm_campaign", "spring")];
    assert UtmPairs(UtmKeys[..4], page) == [("utm_source", "ads"), ("utm_campaign", "spring")];
  }
}
