/**
  * The decision logic of the mail relay's `POST /api/send-pdf` handler, as a function from the
  * process environment, the request body, the time stamp and the e-mail provider's reply to the
  * HTTP response and the provider request (if any) the handler issues. The provider call itself is
  * the reply given as input; the handler consults it only when it makes the call.
  */
module MailRelay {
  import opened Wrappers
  import opened Text

  /** The process environment: variable name to value; an unset variable is absent. */
  type Env = map<string, string>

  /** The variables that must hold a non-blank value before anything is sent. */
  const RequiredEnv: seq<string> := ["RESEND_API_KEY", "EMAIL_FROM"]
  const DefaultRecipient: string := "hsolarte@sgc.gov.co"
  const DefaultFileName: string := "formulario-sindegeologico.pdf"
  const ProviderUrl: string := "https://api.resend.com/emails"
  const Subject: string := "Formulario SINDEGEOLOGICO"
  /** One sentence, written in three pieces so that the absence of a newline is checked piece by piece. */
  const BodyIntro: string := "Se adjunta formulario " + "SINDEGEOLOGICO generado " + "automaticamente."
  const MissingConfigMessage: string := "Faltan variables de Resend en el servidor."
  const MissingPdfMessage: string := "No se recibi\U{F3} el PDF."
  const FallbackErrorMessage: string := "No se pudo enviar el correo."

  /** `Boolean(value && value.trim())`: the variable is set and holds a non-whitespace character. */
  predicate IsSet(env: Env, key: string)
  {
    key in env && Trim(env[key]) != ""
  }

  /** `keys.every(...)`: every listed variable is set. */
  function EveryKeySet(keys: seq<string>, env: Env): (b: bool)
    ensures b <==> forall i :: 0 <= i < |keys| ==> IsSet(env, keys[i])
  {
    |keys| == 0 || (IsSet(env, keys[0]) && EveryKeySet(keys[1..], env))
  }

  /**
    * `hasRequiredEnv`: the API key and the sender are both present and hold a character other
    * than whitespace.
    */
  function HasRequiredEnv(env: Env): (b: bool)
    ensures b <==> forall key :: key in RequiredEnv ==> key in env && !AllWhitespace(env[key])
  {
    var b := EveryKeySet(RequiredEnv, env);
    assert forall key :: key in RequiredEnv ==> key == RequiredEnv[0] || key == RequiredEnv[1];
    b
  }

  /** The recipient: `EMAIL_TO` when it is a non-empty string, the hard-coded address otherwise. */
  function Recipient(env: Env): (to: string)
    ensures to != ""
    ensures "EMAIL_TO" in env && env["EMAIL_TO"] != "" ==> to == env["EMAIL_TO"]
    ensures !("EMAIL_TO" in env && env["EMAIL_TO"] != "") ==> to == DefaultRecipient
  {
    if "EMAIL_TO" in env && env["EMAIL_TO"] != "" then env["EMAIL_TO"] else DefaultRecipient
  }

  /** The JSON body of the request; an absent property is `None`. */
  datatype SendPdfBody = SendPdfBody(
    pdfBase64: Option<string>,
    fileName: Option<string>,
    formData: Option<map<string, string>>)

  /** `req.body || {}`. */
  const EmptyBody: SendPdfBody := SendPdfBody(None, None, None)

  /** A string property is truthy when present and non-empty. */
  predicate Truthy(v: Option<string>)
  {
    v.Some? && v.value != ""
  }

  /** `fileName || 'formulario-sindegeologico.pdf'`: never empty; the request's name when it gave one. */
  function AttachmentName(fileName: Option<string>): (name: string)
    ensures name != ""
    ensures Truthy(fileName) ==> name == fileName.value
    ensures !Truthy(fileName) ==> name == DefaultFileName
  {
    if Truthy(fileName) then fileName.value else DefaultFileName
  }

  /**
    * `formData?.[key] || ''`: the form's value for `key` when the body has a form holding it, and
    * the empty string otherwise; a non-empty result always comes from the form.
    */
  function FormField(formData: Option<map<string, string>>, key: string): (v: string)
    ensures formData.Some? && key in formData.value ==> v == formData.value[key]
    ensures v != "" ==> formData.Some? && key in formData.value
  {
    if formData.Some? && key in formData.value then formData.value[key] else ""
  }

  /** The six lines of the message text, before joining. */
  function BodyLines(formData: Option<map<string, string>>, timestamp: string): (lines: seq<string>)
    ensures |lines| == 6
  {
    [ BodyIntro,
      "",
      Trim("Nombre: " + FormField(formData, "nombres") + " " + FormField(formData, "apellidos")),
      "Correo: " + FormField(formData, "correo"),
      "Ciudad: " + FormField(formData, "ciudad"),
      "Fecha envio: " + timestamp ]
  }

  /** The plain-text body: the six lines joined by newlines; `timestamp` stands for the server's clock. */
  function TextBody(formData: Option<map<string, string>>, timestamp: string): string
  {
    Join(BodyLines(formData, timestamp), '\n')
  }

  /**
    * When the form's name, e-mail and city and the time stamp hold no newline, the body splits back
    * into exactly its six lines; the name line is the trimmed "Nombre: <nombres> <apellidos>" and
    * still starts with "Nombre:".
    */
  lemma TextBodyHasSixLines(formData: Option<map<string, string>>, timestamp: string)
    requires '\n' !in FormField(formData, "nombres") && '\n' !in FormField(formData, "apellidos")
    requires '\n' !in FormField(formData, "correo") && '\n' !in FormField(formData, "ciudad")
    requires '\n' !in timestamp
    ensures var lines := Split(TextBody(formData, timestamp), '\n');
      && |lines| == 6
      && lines == BodyLines(formData, timestamp)
      && StartsWith(lines[2], "Nombre:")
  {
    var lines := BodyLines(formData, timestamp);
    LinesHaveNoNewline(formData, timestamp);
    SplitJoin(lines, '\n');
    var n := FormField(formData, "nombres");
    var a := FormField(formData, "apellidos");
    var nameLine := "Nombre: " + n + " " + a;
    assert StartsWith(nameLine, "Nombre:") by {
      assert nameLine[..7] == "Nombre:";
    }
    NameLineKeepsLabel(nameLine);
  }

  /**
    * Whatever the form holds, the message opens with the fixed introduction, a blank line and the
    * "Nombre:" label.
    */
  lemma TextBodyOpening(formData: Option<map<string, string>>, timestamp: string)
    ensures StartsWith(TextBody(formData, timestamp), BodyIntro + "\n\n" + "Nombre:")
  {
    NameLineOpensRest(formData, timestamp);
    JoinBlankSecond(BodyLines(formData, timestamp), '\n', "Nombre:");
  }

  /** The lines from the name line on, joined, open with the "Nombre:" label. */
  lemma NameLineOpensRest(formData: Option<map<string, string>>, timestamp: string)
    ensures StartsWith(Join(BodyLines(formData, timestamp)[2..], '\n'), "Nombre:")
  {
    var lines := BodyLines(formData, timestamp);
    NameLineOpens(FormField(formData, "nombres"), FormField(formData, "apellidos"));
    StartsWithTrans(Join(lines[2..], '\n'), lines[2], "Nombre:");
  }

  /** The trimmed name line opens with the "Nombre:" label, whatever the names are. */
  lemma NameLineOpens(n: string, a: string)
    ensures StartsWith(Trim("Nombre: " + n + " " + a), "Nombre:")
  {
    var nameLine := "Nombre: " + n + " " + a;
    assert StartsWith(nameLine, "Nombre:") by {
      assert nameLine[..7] == "Nombre:";
    }
    NameLineKeepsLabel(nameLine);
  }

  /** No line of the body holds a newline when the interpolated values hold none. */
  lemma LinesHaveNoNewline(formData: Option<map<string, string>>, timestamp: string)
    requires '\n' !in FormField(formData, "nombres") && '\n' !in FormField(formData, "apellidos")
    requires '\n' !in FormField(formData, "correo") && '\n' !in FormField(formData, "ciudad")
    requires '\n' !in timestamp
    ensures forall i :: 0 <= i < 6 ==> '\n' !in BodyLines(formData, timestamp)[i]
  {
    var lines := BodyLines(formData, timestamp);
    IntroHasNoNewline();
    NameLineHasNoNewline(FormField(formData, "nombres"), FormField(formData, "apellidos"));
    assert '\n' !in lines[3] by {
      assert '\n' !in "Correo: ";
    }
    assert '\n' !in lines[4] by {
      assert '\n' !in "Ciudad: ";
    }
    assert '\n' !in lines[5] by {
      assert '\n' !in "Fecha envio: ";
    }
  }

  /** The fixed first line holds no newline. */
  lemma IntroHasNoNewline()
    ensures '\n' !in BodyIntro
  {
    assert '\n' !in "Se adjunta formulario ";
    assert '\n' !in "SINDEGEOLOGICO generado ";
    assert '\n' !in "automaticamente.";
  }

  /** The trimmed name line holds no newline when the name and surname hold none. */
  lemma NameLineHasNoNewline(n: string, a: string)
    requires '\n' !in n && '\n' !in a
    ensures '\n' !in Trim("Nombre: " + n + " " + a)
  {
    var line := "Nombre: " + n + " " + a;
    assert '\n' !in "Nombre: " && '\n' !in " ";
    assert '\n' !in line;
  }

  /** Trimming a line that starts with "Nombre:" keeps that label (only trailing blanks can go). */
  lemma NameLineKeepsLabel(line: string)
    requires StartsWith(line, "Nombre:")
    ensures StartsWith(Trim(line), "Nombre:")
  {
    var prefix := "Nombre:";
    assert !IsJsWhitespace(prefix[0]) && !IsJsWhitespace(prefix[|prefix| - 1]);
    TrimKeepsPrefix(line, prefix);
  }

  /** One attachment of the provider payload. */
  datatype Attachment = Attachment(filename: string, content: string)

  /** The JSON payload posted to the provider. */
  datatype Payload = Payload(
    from: string, to: seq<string>, subject: string, text: string, attachments: seq<Attachment>)

  /** The provider request: endpoint, `Authorization` header and payload. */
  datatype ProviderRequest = ProviderRequest(url: string, authorization: string, payload: Payload)

  /** What the provider call yields: an HTTP status with its body text, or a thrown error's message. */
  datatype ProviderReply = Reply(status: nat, bodyText: string) | Unreachable(message: string)

  /** `response.ok`: a status in the 2xx range. */
  predicate ReplyOk(reply: ProviderReply)
  {
    reply.Reply? && 200 <= reply.status <= 299
  }

  /** The HTTP response the handler sends. */
  datatype Response = Response(status: nat, ok: bool, message: string)

  /** What one request produces: the response, and the provider request made on its behalf, if any. */
  datatype Handled = Handled(response: Response, call: Option<ProviderRequest>)

  /**
    * The provider request for a valid request: the configured sender, the one recipient, the
    * fixed subject, the text body and a single attachment carrying the chosen name and the
    * request's base64 content untouched.
    */
  function BuildRequest(env: Env, body: SendPdfBody, timestamp: string): (req: ProviderRequest)
    requires HasRequiredEnv(env) && Truthy(body.pdfBase64)
    ensures req.url == ProviderUrl
    ensures req.authorization == "Bearer " + env["RESEND_API_KEY"]
    ensures req.payload.from == env["EMAIL_FROM"]
    ensures req.payload.to == [Recipient(env)]
    ensures req.payload.subject == Subject
    ensures req.payload.text == TextBody(body.formData, timestamp)
    ensures |req.payload.attachments| == 1
    ensures req.payload.attachments[0].filename == AttachmentName(body.fileName)
    ensures req.payload.attachments[0].content == body.pdfBase64.value
  {
    ProviderRequest(
      ProviderUrl,
      "Bearer " + env["RESEND_API_KEY"],
      Payload(
        env["EMAIL_FROM"],
        [Recipient(env)],
        Subject,
        TextBody(body.formData, timestamp),
        [Attachment(AttachmentName(body.fileName), body.pdfBase64.value)]))
  }

  /**
    * The response for the provider's reply: a 2xx reply is a success naming the recipient; a
    * non-2xx reply is a 500 whose message is the provider's body text, or "Error Resend (<status>)"
    * when that is empty; a thrown error is a 500 with its message or a generic one. A failure's
    * message is never empty.
    */
  function ReplyResponse(reply: ProviderReply, to: string): (r: Response)
    ensures r.ok <==> ReplyOk(reply)
    ensures r.ok ==> r.status == 200 && r.message == "Correo enviado a " + to
    ensures !r.ok ==> r.status == 500 && r.message != ""
    ensures reply.Reply? && !r.ok && reply.bodyText != "" ==> r.message == reply.bodyText
    ensures reply.Reply? && !r.ok && reply.bodyText == "" ==>
      r.message == "Error Resend (" + NatToString(reply.status) + ")"
    ensures reply.Unreachable? ==> r.message == (if reply.message != "" then reply.message else FallbackErrorMessage)
  {
    match reply
    case Reply(status, bodyText) =>
      if 200 <= status <= 299 then Response(200, true, "Correo enviado a " + to)
      else if bodyText != "" then Response(500, false, bodyText)
      else Response(500, false, "Error Resend (" + NatToString(status) + ")")
    case Unreachable(message) =>
      Response(500, false, if message != "" then message else FallbackErrorMessage)
  }

  /**
    * `POST /api/send-pdf`. Missing configuration is a 500 before the body is looked at; a missing
    * or empty PDF is a 400; in neither case is the provider called. Otherwise the provider request
    * is built and its reply mapped to the response. The response is a success exactly when the
    * configuration is present, the PDF is given and the provider accepted the message.
    */
  function HandleSendPdf(env: Env, body: Option<SendPdfBody>, timestamp: string, reply: ProviderReply): (h: Handled)
    ensures !HasRequiredEnv(env) ==> h == Handled(Response(500, false, MissingConfigMessage), None)
    ensures HasRequiredEnv(env) && !Truthy(body.GetOr(EmptyBody).pdfBase64) ==>
      h == Handled(Response(400, false, MissingPdfMessage), None)
    ensures h.call.Some? <==> HasRequiredEnv(env) && Truthy(body.GetOr(EmptyBody).pdfBase64)
    ensures h.call.Some? ==> h.call.value == BuildRequest(env, body.GetOr(EmptyBody), timestamp)
    ensures h.call.Some? ==> h.response == ReplyResponse(reply, Recipient(env))
    ensures h.response.ok <==> h.call.Some? && ReplyOk(reply)
    ensures h.response.ok <==> h.response.status == 200
    ensures !h.response.ok ==> h.response.message != ""
  {
    if !HasRequiredEnv(env) then
      Handled(Response(500, false, MissingConfigMessage), None)
    else
      var b := body.GetOr(EmptyBody);
      if !Truthy(b.pdfBase64) then
        Handled(Response(400, false, MissingPdfMessage), None)
      else
        var request := BuildRequest(env, b, timestamp);
        Handled(ReplyResponse(reply, Recipient(env)), Some(request))
  }

  /** The configuration check comes first: without it, every request gets the same 500, PDF or not. */
  lemma ConfigCheckPrecedes(env: Env, b1: Option<SendPdfBody>, b2: Option<SendPdfBody>, t1: string, t2: string,
                            r1: ProviderReply, r2: ProviderReply)
    requires !HasRequiredEnv(env)
    ensures HandleSendPdf(env, b1, t1, r1) == HandleSendPdf(env, b2, t2, r2)
    ensures HandleSendPdf(env, b1, t1, r1).response.status == 500
  {
  }

  /**
    * A delivered message is reported as sent to `EMAIL_TO` when that is set, to the hard-coded
    * address otherwise, and the provider was asked to deliver to that same address only.
    */
  lemma SuccessNamesRecipient(env: Env, body: Option<SendPdfBody>, timestamp: string, reply: ProviderReply)
    requires HandleSendPdf(env, body, timestamp, reply).response.ok
    ensures var h := HandleSendPdf(env, body, timestamp, reply);
      && h.response.message == "Correo enviado a " + Recipient(env)
      && h.call.Some? && h.call.value.payload.to == [Recipient(env)]
  {
  }
}
