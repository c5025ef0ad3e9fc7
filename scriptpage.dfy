/**
 * The static page's script: page attributes read once, the WhatsApp
 * call-to-action, and the contact form's submit handler with its trimming,
 * its disabled-button guard and its three ways out (endpoint success,
 * endpoint failure, hand-off to the mail client).
 */
module ScriptPage {
  import opened Wrappers
  import opened JsText
  import opened UrlQuery
  import opened WhatsLink
  import opened LeadForm

  /** The greeting `buildWhatsAppUrl` uses when it is given no message. */
  const ScriptFallback := "Olá, gostaria de falar com a equipe do Gregório Paisagista."

  const SuccessText := "Mensagem enviada com sucesso! Em breve entraremos em contato."
  const HandOffText := "Abrimos seu cliente de e-mail para finalizar o envio."
  const FailureText := "Não foi possível enviar agora. Tente pelo WhatsApp ou mais tarde."

  /** The CTA greeting for a visitor who typed `name`. */
  function Greeting(name: string): string {
    "Olá, sou " + name + " e gostaria de um orçamento."
  }

  /**
   * The message the WhatsApp call-to-action passes on: a greeting with the
   * trimmed name when that is non-empty, otherwise none (so the builder's
   * fallback applies).
   */
  function CtaMessage(nome: Option<string>): (m: Option<string>)
    ensures m.Some? <==> nome.Some? && Trim(nome.value) != ""
    ensures m.Some? ==> m.value == Greeting(Trim(nome.value))
  {
    match nome
    case Some(v) => var t := Trim(v); if t != "" then Some(Greeting(t)) else None
    case None => None
  }

  /** The text the call-to-action's link carries: the greeting for a real name, the fallback otherwise. */
  lemma CtaLinkText(nome: Option<string>)
    ensures MessageOr(CtaMessage(nome), ScriptFallback)
            == if nome.Some? && Trim(nome.value) != "" then Greeting(Trim(nome.value)) else ScriptFallback
  {
  }

  /** The form's four inputs. */
  const FieldNames: set<string> := {"nome", "email", "telefone", "mensagem"}

  /**
   * The submitted data: each input trimmed (a missing one is ''), and the
   * page address under `page`.
   */
  function Payload(fields: map<string, string>, location: string): (data: map<string, string>)
    ensures data.Keys == FieldNames + {"page"}
    ensures data["page"] == location
    ensures forall k :: k in FieldNames ==> data[k] == Trim(Value(fields, k)) && Trim(data[k]) == data[k]
  {
    forall k | k in FieldNames ensures Trim(Trim(Value(fields, k))) == Trim(Value(fields, k)) {
      TrimIdempotent(Value(fields, k));
    }
    map k | k in FieldNames + {"page"} :: if k == "page" then location else Trim(Value(fields, k))
  }

  /** `s` has a character that is not white space, so it survives `trim`. */
  predicate HasText(s: string) {
    !forall i :: 0 <= i < |s| ==> IsSpace(s[i])
  }

  /**
   * The trimmed form passes validation exactly when name, e-mail and message
   * each hold something besides white space; the phone plays no part.
   */
  lemma PayloadComplete(fields: map<string, string>, location: string)
    ensures Complete(Payload(fields, location))
            <==> HasText(Value(fields, "nome")) && HasText(Value(fields, "email")) && HasText(Value(fields, "mensagem"))
  {
    TrimIsSlice(Value(fields, "nome"));
    TrimIsSlice(Value(fields, "email"));
    TrimIsSlice(Value(fields, "mensagem"));
  }

  /** The hand-off link for the trimmed data. */
  function ScriptMailto(email: string, data: map<string, string>, enc: string -> string): string {
    MailtoUrl(email, Value(data, "nome"), Value(data, "email"), Value(data, "telefone"), Value(data, "mensagem"), enc)
  }

  /** What the handler does once it is past validation, before the button is re-enabled. */
  function Routed(endpoint: string, email: string, data: map<string, string>, net: NetOutcome,
                  enc: string -> string): seq<Effect>
  {
    if endpoint != "" then
      [Fetch(Request(endpoint, data))] + (if net == Ok then [Feedback(SuccessText), ResetForm] else [Feedback(FailureText)])
    else
      [Navigate(ScriptMailto(email, data, enc)), Feedback(HandOffText)]
  }

  /** What the handler does between disabling and re-enabling the button. */
  function Work(endpoint: string, email: string, data: map<string, string>, net: NetOutcome,
                enc: string -> string): seq<Effect>
  {
    if !Complete(data) then [Feedback(ValidationMessage)] else Routed(endpoint, email, data, net, enc)
  }

  /** How many effects the middle part has: the message alone, or two or three for the routed paths. */
  function WorkLength(data: map<string, string>, endpoint: string, net: NetOutcome): nat {
    if !Complete(data) then 1 else if endpoint != "" && net == Ok then 3 else 2
  }

  /** The feedback text a submission ends with. */
  function FinalText(endpoint: string, data: map<string, string>, net: NetOutcome): string {
    if !Complete(data) then ValidationMessage
    else if endpoint != "" then (if net == Ok then SuccessText else FailureText)
    else HandOffText
  }

  /**
   * The effects of one submission of the static page's form with payload
   * `data`: nothing at all without a feedback element; otherwise the
   * feedback is cleared, the button (if any) disabled, and then either the
   * validation message, or exactly one POST (the form reset only on `Ok`),
   * or exactly one navigation to the hand-off link; the button is
   * re-enabled as the very last effect on every path.
   */
  function SubmitEffects(hasFeedback: bool, hasButton: bool, endpoint: string, email: string,
                         data: map<string, string>, net: NetOutcome, enc: string -> string): seq<Effect>
  {
    if !hasFeedback then [] else Opening(hasButton) + (Work(endpoint, email, data, net, enc) + Closing(hasButton))
  }

  /** The handler first clears the feedback and disables the button, if there is one. */
  function Opening(hasButton: bool): seq<Effect> {
    [Feedback("")] + (if hasButton then [SetDisabled(true)] else [])
  }

  /** The handler's last act: it re-enables the button, if there is one. */
  function Closing(hasButton: bool): seq<Effect> {
    if hasButton then [SetDisabled(false)] else []
  }

  /**
   * What one submission does: nothing at all without a feedback element;
   * otherwise the button (if any) is disabled second and re-enabled last,
   * the form is POSTed exactly once when it is complete and an endpoint is
   * set (with the trimmed data as its body), handed to the mail client
   * exactly once, on the hand-off link, when it is complete and no endpoint
   * is set, reset only after an `Ok` response, and the feedback
   * ends on the outcome's text whatever it said before.
   */
  lemma SubmitEffectsFacts(hasFeedback: bool, hasButton: bool, endpoint: string, email: string,
                           data: map<string, string>, net: NetOutcome, enc: string -> string)
    ensures var effects := SubmitEffects(hasFeedback, hasButton, endpoint, email, data, net, enc);
            && (!hasFeedback ==> effects == [])
            && SubmitEffectsShape(effects, hasFeedback, hasButton, data, endpoint, net)
            && (hasFeedback && hasButton ==> |effects| >= 2 && effects[1] == SetDisabled(true)
                                             && effects[|effects| - 1] == SetDisabled(false))
            && Fetches(effects) == (if hasFeedback && Complete(data) && endpoint != "" then 1 else 0)
            && Navigations(effects) == (if hasFeedback && Complete(data) && endpoint == "" then 1 else 0)
            && (ResetForm in effects <==> hasFeedback && Complete(data) && endpoint != "" && net == Ok)
            && (hasFeedback && Complete(data) && endpoint != "" ==> Fetch(Request(endpoint, data)) in effects)
            && (hasFeedback && Complete(data) && endpoint == "" ==> Navigate(ScriptMailto(email, data, enc)) in effects)
            && (hasFeedback ==> forall t :: FeedbackAfter(effects, t) == FinalText(endpoint, data, net))
  {
    SubmitEffectsShaped(hasFeedback, hasButton, endpoint, email, data, net, enc);
    SubmitEffectsCounted(hasFeedback, hasButton, endpoint, email, data, net, enc);
    if hasFeedback {
      var head := Opening(hasButton);
      var enable := Closing(hasButton);
      var work := Work(endpoint, email, data, net, enc);
      var effects := head + work + enable;
      assert head + (work + enable) == effects;
      forall t ensures FeedbackAfter(effects, t) == FinalText(endpoint, data, net) {
        WorkFacts(endpoint, email, data, net, enc);
        FeedbackAfterAppend(head + work, enable, t);
        FeedbackAfterAppend(head, work, t);
        if enable != [] {
          assert enable[..0] == [];
        }
      }
    }
  }

  /** The POSTs, navigations and resets of a submission are those of its middle part. */
  lemma SubmitEffectsCounted(hasFeedback: bool, hasButton: bool, endpoint: string, email: string,
                             data: map<string, string>, net: NetOutcome, enc: string -> string)
    ensures var effects := SubmitEffects(hasFeedback, hasButton, endpoint, email, data, net, enc);
            && Fetches(effects) == (if hasFeedback && Complete(data) && endpoint != "" then 1 else 0)
            && Navigations(effects) == (if hasFeedback && Complete(data) && endpoint == "" then 1 else 0)
            && (ResetForm in effects <==> hasFeedback && Complete(data) && endpoint != "" && net == Ok)
            && (hasFeedback && Complete(data) && endpoint != "" ==> Fetch(Request(endpoint, data)) in effects)
            && (hasFeedback && Complete(data) && endpoint == "" ==> Navigate(ScriptMailto(email, data, enc)) in effects)
  {
    if hasFeedback {
      var head := Opening(hasButton);
      var enable := Closing(hasButton);
      var work := Work(endpoint, email, data, net, enc);
      var effects := head + work + enable;
      assert head + (work + enable) == effects;
      WorkFacts(endpoint, email, data, net, enc);
      CountsAppend(head + work, enable);
      CountsAppend(head, work);
      if Complete(data) {
        assert effects[|head|] == work[0];
      }
    }
  }

  /**
   * The submission's effects have nothing but feedback, button, request,
   * reset and navigation: the feedback is cleared first, and the list is the
   * middle part plus one effect for the clearing and two for the button.
   */
  predicate SubmitEffectsShape(effects: seq<Effect>, hasFeedback: bool, hasButton: bool,
                               data: map<string, string>, endpoint: string, net: NetOutcome)
  {
    && (hasFeedback ==> |effects| > 0 && effects[0] == Feedback(""))
    && (hasFeedback ==> |effects| == WorkLength(data, endpoint, net) + (if hasButton then 3 else 1))
    && (forall i :: 0 <= i < |effects| ==> !effects[i].Alert? && !effects[i].OpenWindow?)
  }

  lemma SubmitEffectsShaped(hasFeedback: bool, hasButton: bool, endpoint: string, email: string,
                            data: map<string, string>, net: NetOutcome, enc: string -> string)
    ensures SubmitEffectsShape(SubmitEffects(hasFeedback, hasButton, endpoint, email, data, net, enc),
                               hasFeedback, hasButton, data, endpoint, net)
  {
    if hasFeedback {
      var head := Opening(hasButton);
      var work := Work(endpoint, email, data, net, enc);
      var effects := head + (work + Closing(hasButton));
      WorkFacts(endpoint, email, data, net, enc);
      assert forall i :: |head| <= i < |head| + |work| ==> effects[i] == work[i - |head|];
    }
  }

  /** The middle part posts, navigates, resets and speaks as its outcome says. */
  lemma WorkFacts(endpoint: string, email: string, data: map<string, string>, net: NetOutcome, enc: string -> string)
    ensures var work := Work(endpoint, email, data, net, enc);
            && Fetches(work) == (if Complete(data) && endpoint != "" then 1 else 0)
            && Navigations(work) == (if Complete(data) && endpoint == "" then 1 else 0)
            && (ResetForm in work <==> Complete(data) && endpoint != "" && net == Ok)
            && (!Complete(data) ==> work == [Feedback(ValidationMessage)])
            && |work| == WorkLength(data, endpoint, net)
            && (Complete(data) ==> work[1] == Feedback(FinalText(endpoint, data, net)))
            && (forall i :: 0 <= i < |work| ==> !work[i].Alert? && !work[i].OpenWindow? && !work[i].SetDisabled?)
            && (Complete(data) && endpoint != "" ==> work[0] == Fetch(Request(endpoint, data)))
            && (Complete(data) && endpoint == "" ==> work[0] == Navigate(ScriptMailto(email, data, enc)))
            && forall t :: FeedbackAfter(work, t) == FinalText(endpoint, data, net)
  {
    var work := Work(endpoint, email, data, net, enc);
    if Complete(data) && endpoint != "" && net == Ok {
      assert work[..|work| - 1] == [Fetch(Request(endpoint, data)), Feedback(SuccessText)];
    }
  }

  /** No effect in `b` touches the submit button. */
  predicate LeavesButton(b: seq<Effect>) {
    forall i :: 0 <= i < |b| ==> !b[i].SetDisabled?
  }

  lemma {:induction false} DisabledAfterUntouched(b: seq<Effect>, disabled: bool)
    requires LeavesButton(b)
    ensures DisabledAfter(b, disabled) == disabled
    decreases |b|
  {
    if b != [] {
      DisabledAfterUntouched(b[..|b| - 1], disabled);
    }
  }

  /**
   * Whenever the handler POSTs or navigates, the button is disabled at that
   * moment, whatever state it started in; and it ends enabled.
   */
  lemma {:induction false} ButtonGuardsWork(endpoint: string, email: string, data: map<string, string>,
                                            net: NetOutcome, enc: string -> string, start: bool)
    ensures var effects := SubmitEffects(true, true, endpoint, email, data, net, enc);
            && (forall i :: 0 <= i < |effects| && (effects[i].Fetch? || effects[i].Navigate?) ==>
                  DisabledAfter(effects[..i], start))
            && !DisabledAfter(effects, start)
  {
    var effects := SubmitEffects(true, true, endpoint, email, data, net, enc);
    var work := Work(endpoint, email, data, net, enc);
    var head := Opening(true);
    assert effects == head + work + Closing(true);
    forall i | 0 <= i < |effects| && (effects[i].Fetch? || effects[i].Navigate?)
      ensures DisabledAfter(effects[..i], start)
    {
      assert 2 <= i < |effects| - 1;
      assert effects[..i] == head + work[..i - 2];
      DisabledAfterAppend(head, work[..i - 2], start);
      assert DisabledAfter(head, start) by {
        assert head[..|head| - 1] == [Feedback("")];
      }
      DisabledAfterUntouched(work[..i - 2], true);
    }
  }

  class Page {
    /** `data-whatsapp || ''`. */
    const whatsappNumber: string
    /** `data-form-endpoint || ''`. */
    const formEndpoint: string
    /** `data-email || ''`. */
    const publicEmail: string
    /** Whether the form has its `.form-feedback` element. */
    const hasFeedback: bool
    /** Whether the form has a submit button. */
    const hasButton: bool
    /** `window.location.href`, and its query decoded into entries. */
    const location: string
    const query: seq<Pair>
    /** The inputs' initial values, which `form.reset()` restores. */
    const defaults: map<string, string>

    /** The form's inputs by name. */
    var fields: map<string, string>
    /** The feedback element's text. */
    var feedback: string
    /** The submit button's `disabled`. */
    var disabled: bool
    /** Feedback writes, button changes, requests, resets, navigations and opened windows so far. */
    var log: seq<Effect>

    /** The script starts: it reads the body's data attributes once. */
    constructor (attributes: map<string, string>, hasFeedback: bool, hasButton: bool,
                 location: string, query: seq<Pair>, defaults: map<string, string>)
      ensures whatsappNumber == Value(attributes, "data-whatsapp")
      ensures formEndpoint == Value(attributes, "data-form-endpoint")
      ensures publicEmail == Value(attributes, "data-email")
      ensures this.hasFeedback == hasFeedback && this.hasButton == hasButton
      ensures this.location == location && this.query == query && this.defaults == defaults
      ensures fields == defaults && feedback == "" && !disabled && log == []
    {
      whatsappNumber := Value(attributes, "data-whatsapp");
      formEndpoint := Value(attributes, "data-form-endpoint");
      publicEmail := Value(attributes, "data-email");
      this.hasFeedback := hasFeedback;
      this.hasButton := hasButton;
      this.location := location;
      this.query := query;
      this.defaults := defaults;
      fields := defaults;
      feedback := "";
      disabled := false;
      log := [];
    }

    /** `buildWhatsAppUrl(message)`. */
    method BuildWhatsAppUrl(message: Option<string>, enc: string -> string) returns (url: string)
      ensures url == DeepLink(whatsappNumber, ScriptFallback, message, query, enc)
    {
      url := BuildLink(whatsappNumber, ScriptFallback, message, query, enc);
    }

    /** The `nome` input's value, if the input exists. */
    function NameInput(): Option<string>
      reads this
    {
      if "nome" in fields then Some(fields["nome"]) else None
    }

    /** A click on a WhatsApp call-to-action opens the deep link in a new window. */
    method ClickWhatsApp(enc: string -> string)
      modifies this`log
      ensures log == old(log) + [OpenWindow(DeepLink(whatsappNumber, ScriptFallback, CtaMessage(NameInput()), query, enc))]
    {
      var nome := if "nome" in fields then Some(Trim(fields["nome"])) else None;
      var msg := if nome.Some? && nome.value != "" then Some(Greeting(nome.value)) else None;
      var url := BuildWhatsAppUrl(msg, enc);
      log := log + [OpenWindow(url)];
    }

    /** The visitor types `value` into input `name`. */
    method Input(name: string, value: string)
      modifies this`fields
      ensures fields == old(fields)[name := value]
    {
      fields := fields[name := value];
    }

    method SetFeedback(text: string)
      modifies this`feedback, this`log
      ensures feedback == text && log == old(log) + [Feedback(text)]
    {
      feedback := text;
      log := log + [Feedback(text)];
    }

    method SetButton(b: bool)
      modifies this`disabled, this`log
      ensures disabled == b && log == old(log) + [SetDisabled(b)]
    {
      disabled := b;
      log := log + [SetDisabled(b)];
    }

    /** `form.reset()`. */
    method Reset()
      modifies this`fields, this`log
      ensures fields == defaults && log == old(log) + [ResetForm]
    {
      fields := defaults;
      log := log + [ResetForm];
    }

    /** The handler past validation: the POST and its outcome, or the hand-off to the mail client. */
    method Route(data: map<string, string>, net: NetOutcome, enc: string -> string)
      requires Complete(data)
      modifies this`log, this`feedback, this`fields
      ensures log == old(log) + Routed(formEndpoint, publicEmail, data, net, enc)
      ensures feedback == FinalText(formEndpoint, data, net)
      ensures fields == if formEndpoint != "" && net == Ok then defaults else old(fields)
    {
      if formEndpoint != "" {
        log := log + [Fetch(Request(formEndpoint, data))];
        if net == Ok {
          SetFeedback(SuccessText);
          Reset();
        } else {
          SetFeedback(FailureText);
        }
      } else {
        var subject := enc(MailSubject);
        var body := enc(MailBody(Value(data, "nome"), Value(data, "email"), Value(data, "telefone"), Value(data, "mensagem")));
        log := log + [Navigate("mailto:" + publicEmail + "?subject=" + subject + "&body=" + body)];
        SetFeedback(HandOffText);
      }
    }

    /** The handler's opening: feedback cleared, button disabled. */
    method Begin()
      modifies this`feedback, this`disabled, this`log
      ensures log == old(log) + Opening(hasButton)
      ensures feedback == "" && disabled == (if hasButton then true else old(disabled))
    {
      SetFeedback("");
      if hasButton {
        SetButton(true);
      }
    }

    /** The handler once it has the trimmed data: validation, routing, and the button re-enabled on every path. */
    method Process(data: map<string, string>, net: NetOutcome, enc: string -> string)
      modifies this`feedback, this`disabled, this`log, this`fields
      ensures log == old(log) + (Work(formEndpoint, publicEmail, data, net, enc) + Closing(hasButton))
      ensures feedback == FinalText(formEndpoint, data, net)
      ensures fields == if Complete(data) && formEndpoint != "" && net == Ok then defaults else old(fields)
      ensures disabled == if hasButton then false else old(disabled)
    {
      if Value(data, "nome") == "" || Value(data, "email") == "" || Value(data, "mensagem") == "" {
        SetFeedback(ValidationMessage);
        if hasButton {
          SetButton(false);
        }
        Assoc(old(log), [Feedback(ValidationMessage)], Closing(hasButton));
        return;
      }
      Route(data, net, enc);
      ghost var routed := log;
      if hasButton {
        SetButton(false);
      }
      assert log == routed + Closing(hasButton);
      Assoc(old(log), Routed(formEndpoint, publicEmail, data, net, enc), Closing(hasButton));
    }

    /** The submit handler, with `net` standing for how the POST ends. */
    method Submit(net: NetOutcome, enc: string -> string)
      modifies this`feedback, this`disabled, this`log, this`fields
      ensures log == old(log) + SubmitEffects(hasFeedback, hasButton, formEndpoint, publicEmail,
                                              Payload(old(fields), location), net, enc)
      ensures fields == if hasFeedback && Complete(Payload(old(fields), location)) && formEndpoint != "" && net == Ok
                        then defaults else old(fields)
      ensures feedback == if hasFeedback then FinalText(formEndpoint, Payload(old(fields), location), net) else old(feedback)
      ensures disabled == if hasFeedback && hasButton then false else old(disabled)
    {
      if !hasFeedback {
        assert log == old(log) + [];
        return;
      }
      Begin();
      var data := Payload(fields, location);
      assert data == Payload(old(fields), location);
      Process(data, net, enc);
      Assoc(old(log), Opening(hasButton), Work(formEndpoint, publicEmail, data, net, enc) + Closing(hasButton));
    }
  }
}
