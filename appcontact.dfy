/**
 * The React contact section's `onSubmit`: the required fields are checked
 * as typed (no trimming); then the entries are POSTed to the configured
 * endpoint, or, with none configured, handed to the mail client.
 */
module AppContact {
  import opened LeadForm
  import opened AppLinks

  const SuccessAlert := "Mensagem enviada com sucesso!"
  const FailureAlert := "Não foi possível enviar agora. Tente novamente ou use o WhatsApp."

  /** `{ ...data, page: window.location.href }`: the form's entries with the page address added. */
  function Payload(data: map<string, string>, page: string): (body: map<string, string>)
    ensures body.Keys == data.Keys + {"page"}
    ensures body["page"] == page
    ensures forall k :: k in data && k != "page" ==> body[k] == data[k]
  {
    data["page" := page]
  }

  /** The hand-off link for entries `data`; a missing phone reads as ''. */
  function AppMailto(config: Config, data: map<string, string>, enc: string -> string): string {
    MailtoUrl(config.email, Value(data, "nome"), Value(data, "email"), Value(data, "telefone"),
              Value(data, "mensagem"), enc)
  }

  /**
   * The effects of one submission with entries `data`: an incomplete form
   * only raises the validation alert; a complete one is POSTed exactly once
   * when an endpoint is configured, followed by the success alert and then
   * the reset on an `ok` response, or by the failure alert alone on any
   * other response or a rejected request; otherwise it causes exactly one
   * navigation, to the hand-off link, and nothing else.
   */
  function SubmitEffects(config: Config, data: map<string, string>, page: string, net: NetOutcome,
                         enc: string -> string): (effects: seq<Effect>)
    ensures !Complete(data) ==> effects == [Alert(ValidationMessage)]
    ensures Fetches(effects) == (if Complete(data) && config.formEndpoint != "" then 1 else 0)
    ensures Navigations(effects) == (if Complete(data) && config.formEndpoint == "" then 1 else 0)
    ensures ResetForm in effects <==> Complete(data) && config.formEndpoint != "" && net == Ok
    ensures Alert(SuccessAlert) in effects <==> Complete(data) && config.formEndpoint != "" && net == Ok
    ensures Alert(FailureAlert) in effects <==> Complete(data) && config.formEndpoint != "" && net != Ok
    ensures Complete(data) && config.formEndpoint != "" ==>
              effects[0] == Fetch(Request(config.formEndpoint, Payload(data, page)))
    ensures Complete(data) && config.formEndpoint != "" ==>
              && |effects| == (if net == Ok then 3 else 2)
              && effects[1] == Alert(if net == Ok then SuccessAlert else FailureAlert)
    ensures Complete(data) && config.formEndpoint == "" ==> effects == [Navigate(AppMailto(config, data, enc))]
  {
    if !Complete(data) then
      [Alert(ValidationMessage)]
    else if config.formEndpoint != "" then
      var outcome := if net == Ok then [Alert(SuccessAlert), ResetForm] else [Alert(FailureAlert)];
      var effects := [Fetch(Request(config.formEndpoint, Payload(data, page)))] + outcome;
      CountsAppend([Fetch(Request(config.formEndpoint, Payload(data, page)))], outcome);
      effects
    else
      [Navigate(AppMailto(config, data, enc))]
  }

  /** The phone never decides whether the form is complete. */
  lemma PhoneNeverRequired(data: map<string, string>, telefone: string)
    ensures Complete(data["telefone" := telefone]) == Complete(data)
    ensures Complete(data - {"telefone"}) == Complete(data)
  {
  }

  /** With the shipped configuration a complete form always goes to the mail client. */
  lemma ShippedHandsOff(data: map<string, string>, page: string, net: NetOutcome, enc: string -> string)
    requires Complete(data)
    ensures SubmitEffects(Shipped, data, page, net, enc) == [Navigate(AppMailto(Shipped, data, enc))]
  {
  }

  class ContactSection {
    const config: Config
    /** `window.location.href`. */
    const page: string
    /** The inputs' initial values, which `form.reset()` restores. */
    const defaults: map<string, string>
    /** The form's entries, as `new FormData(form)` would read them. */
    var fields: map<string, string>
    /** Alerts, requests, resets and navigations so far. */
    var log: seq<Effect>

    constructor (config: Config, page: string, defaults: map<string, string>)
      ensures this.config == config && this.page == page && this.defaults == defaults
      ensures fields == defaults && log == []
    {
      this.config := config;
      this.page := page;
      this.defaults := defaults;
      fields := defaults;
      log := [];
    }

    /** The visitor types `value` into input `name`. */
    method Input(name: string, value: string)
      modifies this`fields
      ensures fields == old(fields)[name := value]
    {
      fields := fields[name := value];
    }

    /** `form.reset()`. */
    method Reset()
      modifies this
      ensures fields == defaults && log == old(log) + [ResetForm]
    {
      fields := defaults;
      log := log + [ResetForm];
    }

    /** `onSubmit`, with `net` standing for how the POST ends. */
    method Submit(net: NetOutcome, enc: string -> string)
      modifies this
      ensures log == old(log) + SubmitEffects(config, old(fields), page, net, enc)
      ensures fields == if ResetForm in SubmitEffects(config, old(fields), page, net, enc) then defaults else old(fields)
    {
      var data := fields;
      if Value(data, "nome") == "" || Value(data, "email") == "" || Value(data, "mensagem") == "" {
        log := log + [Alert(ValidationMessage)];
        return;
      }
      if config.formEndpoint != "" {
        log := log + [Fetch(Request(config.formEndpoint, data["page" := page]))];
        if net == Ok {
          log := log + [Alert(SuccessAlert)];
          Reset();
        } else {
          log := log + [Alert(FailureAlert)];
        }
      } else {
        var subject := enc(MailSubject);
        var body := enc(MailBody(Value(data, "nome"), Value(data, "email"), Value(data, "telefone"), Value(data, "mensagem")));
        log := log + [Navigate("mailto:" + config.email + "?subject=" + subject + "&body=" + body)];
      }
    }
  }
}
