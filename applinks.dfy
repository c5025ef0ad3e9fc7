/**
 * The React page's configuration and the two links built from it: the
 * WhatsApp deep link (`buildWhatsUrl`) and the `tel:` link.
 */
module AppLinks {
  import opened Wrappers
  import opened JsText
  import opened UrlQuery
  import opened WhatsLink

  datatype Config = Config(whatsapp: string, email: string, phone: string, formEndpoint: string)

  /** The configuration the page ships with: no form endpoint, so the form hands off to e-mail. */
  const Shipped := Config("5531989484903", "contato@gregoriopaisagista.com.br", "(31) 98948-4903", "")

  /** The greeting `buildWhatsUrl` uses when it is given no message. */
  const AppFallback := "Olá, gostaria de um orçamento."

  /**
   * `buildWhatsUrl(message)`: the deep link to the configured number; `page`
   * is the current page's query.
   */
  method BuildWhatsUrl(config: Config, message: Option<string>, page: seq<Pair>, enc: string -> string)
    returns (url: string)
    ensures url == DeepLink(config.whatsapp, AppFallback, message, page, enc)
  {
    url := BuildLink(config.whatsapp, AppFallback, message, page, enc);
  }

  /** The `tel:` link: the scheme and the digits of the configured phone, nothing else. */
  function TelHref(phone: string): (href: string)
    ensures |href| >= 4 && href[..4] == "tel:"
    ensures forall i :: 4 <= i < |href| ==> IsDigit(href[i])
    ensures href[4..] == KeepDigits(phone)
  {
    "tel:" + KeepDigits(phone)
  }

  /**
   * The link depends on the digits of the phone only: punctuation between
   * its parts is dropped, and a phone written as digits alone gives the
   * same link.
   */
  lemma {:induction false} TelHrefIgnoresPunctuation(area: string, sep: string, number: string)
    requires forall i :: 0 <= i < |sep| ==> !IsDigit(sep[i])
    ensures TelHref(area + sep + number) == TelHref(area + number)
    ensures TelHref(KeepDigits(area + sep + number)) == TelHref(area + sep + number)
  {
    var whole := area + sep + number;
    assert KeepDigits(sep) == [];
    assert KeepDigits(whole) == KeepDigits(area) + KeepDigits(number) by {
      KeepDigitsConcat(area + sep, number);
      KeepDigitsConcat(area, sep);
    }
    KeepDigitsConcat(area, number);
    var d := KeepDigits(whole);
    assert KeepDigits(d) == d;
  }
}
