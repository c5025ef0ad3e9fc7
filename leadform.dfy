/**
 * What the two contact-form handlers share: the outcome of the network call,
 * the effects a handler has on the page and the outside world, the
 * required-field check, and the e-mail (`mailto:`, RFC 6068 section 2)
 * hand-off used when no endpoint is configured.
 */
module LeadForm {
  import opened JsText

  /** How the POST to the form endpoint ends: a response with `ok`, one without, or a rejected promise. */
  datatype NetOutcome = Ok | NotOk | Throw

  /** A JSON POST to the form endpoint; the body's fields, before `JSON.stringify`. */
  datatype Request = Request(endpoint: string, body: map<string, string>)

  /** One observable effect of a handler, in the order the handler causes them. */
  datatype Effect =
    | Alert(message: string)
    | Feedback(text: string)
    | SetDisabled(disabled: bool)
    | Fetch(request: Request)
    | ResetForm
    | Navigate(url: string)
    | OpenWindow(url: string)

  /** A form field or page attribute read with `|| ''`: missing reads as the empty string. */
  function Value(fields: map<string, string>, name: string): string {
    if name in fields then fields[name] else ""
  }

  /** Name, e-mail and message are all non-empty; the phone is never required. */
  predicate Complete(data: map<string, string>) {
    Value(data, "nome") != "" && Value(data, "email") != "" && Value(data, "mensagem") != ""
  }

  const ValidationMessage := "Por favor, preencha nome, e-mail e mensagem."

  const MailSubject := "Contato pelo site - Gregório Paisagista"

  /** The lines of the e-mail body: the four fields, labelled, in the order name, e-mail, phone, message. */
  function MailLines(nome: string, email: string, telefone: string, mensagem: string): seq<string> {
    ["Nome: " + nome, "E-mail: " + email, "Telefone: " + telefone, "", "Mensagem:", mensagem]
  }

  /** The e-mail body as the template literal writes it. */
  function MailBody(nome: string, email: string, telefone: string, mensagem: string): string {
    "Nome: " + nome + "\nE-mail: " + email + "\nTelefone: " + telefone + "\n\nMensagem:\n" + mensagem
  }

  /** The body is its lines joined with newlines. */
  lemma LabelsSplit()
    ensures "\nE-mail: " == "\n" + "E-mail: "
    ensures "\nTelefone: " == "\n" + "Telefone: "
    ensures "\n\nMensagem:\n" == "\n" + "" + "\n" + "Mensagem:" + "\n"
  {
  }

  lemma MailBodyIsLines(nome: string, email: string, telefone: string, mensagem: string)
    ensures MailBody(nome, email, telefone, mensagem) == Join(MailLines(nome, email, telefone, mensagem), '\n')
  {
    var n, e, t := "Nome: " + nome, "E-mail: " + email, "Telefone: " + telefone;
    JoinSix(n, e, t, "", "Mensagem:", mensagem, '\n');
    LabelsSplit();
    Assoc(n, "\n", "E-mail: ");
    Assoc(n + "\n", "E-mail: ", email);
    var ne := n + "\n" + e;
    Assoc(ne, "\n", "Telefone: ");
    Assoc(ne + "\n", "Telefone: ", telefone);
    var net := ne + "\n" + t;
    Assoc(net, "\n" + "" + "\n" + "Mensagem:", "\n");
    Assoc(net, "\n" + "", "\n");
    Assoc(net, "\n", "");
    Assoc(net + "\n" + "", "\n", "Mensagem:");
  }

  /** Single-line fields give single-line labelled lines. */
  lemma LabelledLinesSingle(nome: string, email: string, telefone: string, mensagem: string)
    requires '\n' !in nome && '\n' !in email && '\n' !in telefone
    ensures var head := MailLines(nome, email, telefone, mensagem)[..5];
            forall i :: 0 <= i < |head| ==> '\n' !in head[i]
  {
    var ls := MailLines(nome, email, telefone, mensagem);
    assert forall c :: c in ls[0] ==> c in "Nome: " || c in nome;
    assert forall c :: c in ls[1] ==> c in "E-mail: " || c in email;
    assert forall c :: c in ls[2] ==> c in "Telefone: " || c in telefone;
  }

  /**
   * When name, e-mail and phone hold no line break (single-line inputs), the
   * body splits back into its five labelled lines followed by the lines of
   * the message, which may span several; a one-line message gives exactly
   * the six lines.
   */
  lemma MailBodyReadsBack(nome: string, email: string, telefone: string, mensagem: string)
    requires '\n' !in nome && '\n' !in email && '\n' !in telefone
    ensures Split(MailBody(nome, email, telefone, mensagem), '\n')
            == MailLines(nome, email, telefone, mensagem)[..5] + Split(mensagem, '\n')
    ensures '\n' !in mensagem ==>
              Split(MailBody(nome, email, telefone, mensagem), '\n') == MailLines(nome, email, telefone, mensagem)
  {
    var ls := MailLines(nome, email, telefone, mensagem);
    var head := ls[..5];
    MailBodyIsLines(nome, email, telefone, mensagem);
    LabelledLinesSingle(nome, email, telefone, mensagem);
    assert ls == head + [mensagem];
    JoinSnoc(head, mensagem, '\n');
    SplitAfterJoin(head, mensagem, '\n');
  }

  /** The hand-off link: the address, then the encoded subject and body as `subject` and `body`. */
  function MailtoUrl(address: string, nome: string, email: string, telefone: string, mensagem: string,
                     enc: string -> string): string
  {
    "mailto:" + address + "?subject=" + enc(MailSubject) + "&body=" + enc(MailBody(nome, email, telefone, mensagem))
  }

  /** How many effects in `effects` are navigations. */
  function Navigations(effects: seq<Effect>): (n: nat)
    ensures n == 0 <==> forall i :: 0 <= i < |effects| ==> !effects[i].Navigate?
  {
    if effects == [] then 0 else (if effects[0].Navigate? then 1 else 0) + Navigations(effects[1..])
  }

  /** How many effects in `effects` are POSTs. */
  function Fetches(effects: seq<Effect>): (n: nat)
    ensures n == 0 <==> forall i :: 0 <= i < |effects| ==> !effects[i].Fetch?
  {
    if effects == [] then 0 else (if effects[0].Fetch? then 1 else 0) + Fetches(effects[1..])
  }

  lemma {:induction false} CountsAppend(a: seq<Effect>, b: seq<Effect>)
    ensures Navigations(a + b) == Navigations(a) + Navigations(b)
    ensures Fetches(a + b) == Fetches(a) + Fetches(b)
  {
    if a == [] {
      assert a + b == b;
    } else {
      assert (a + b)[1..] == a[1..] + b;
      CountsAppend(a[1..], b);
    }
  }

  /** Whether the submit button is disabled after `effects`, starting from `disabled`. */
  function DisabledAfter(effects: seq<Effect>, disabled: bool): bool
    decreases |effects|
  {
    if effects == [] then disabled
    else
      var last := effects[|effects| - 1];
      if last.SetDisabled? then last.disabled else DisabledAfter(effects[..|effects| - 1], disabled)
  }

  /** Playing `a` and then `b` is playing `b` from where `a` left the button. */
  lemma {:induction false} DisabledAfterAppend(a: seq<Effect>, b: seq<Effect>, disabled: bool)
    ensures DisabledAfter(a + b, disabled) == DisabledAfter(b, DisabledAfter(a, disabled))
    decreases |b|
  {
    if b == [] {
      assert a + b == a;
    } else {
      assert (a + b)[..|a + b| - 1] == a + b[..|b| - 1];
      DisabledAfterAppend(a, b[..|b| - 1], disabled);
    }
  }

  /** The feedback text after `effects`, starting from `text`. */
  function FeedbackAfter(effects: seq<Effect>, text: string): string
    decreases |effects|
  {
    if effects == [] then text
    else if effects[|effects| - 1].Feedback? then effects[|effects| - 1].text
    else FeedbackAfter(effects[..|effects| - 1], text)
  }

  /** Playing `a` and then `b` is playing `b` from the text `a` left. */
  lemma {:induction false} FeedbackAfterAppend(a: seq<Effect>, b: seq<Effect>, text: string)
    ensures FeedbackAfter(a + b, text) == FeedbackAfter(b, FeedbackAfter(a, text))
    decreases |b|
  {
    if b == [] {
      assert a + b == a;
    } else {
      assert (a + b)[..|a + b| - 1] == a + b[..|b| - 1];
      FeedbackAfterAppend(a, b[..|b| - 1], text);
    }
  }
}
