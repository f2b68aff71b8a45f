/**
 * The messaging side of the service (src/services/twilio.ts): reading the
 * fields of an inbound webhook form and computing the WhatsApp address a
 * reply is sent to. The delivery itself is outside the model.
 */
module Twilio {
  import opened Wrappers
  import opened Text
  import Db

  /** The fields the service reads from a webhook form. */
  datatype IncomingMessage = IncomingMessage(from: string, body: string, messageSid: string, profileName: string, waId: string)

  const EmptyMessage := IncomingMessage("", "", "", "", "")

  /** `requestData[key] || ''`: a missing key and an empty value both read as empty. */
  function FormField(request: map<string, string>, key: string): string {
    if key in request then request[key] else ""
  }

  /**
   * `parseIncomingMessage`: the five form fields, each empty when absent; a
   * form that cannot be read at all (`None`) gives the all-empty message.
   */
  function ParseIncomingMessage(request: Option<map<string, string>>): (r: IncomingMessage)
    ensures request.None? ==> r == EmptyMessage
    ensures request.Some? ==>
      && (r.from == "" <==> "From" !in request.value || request.value["From"] == "")
      && (r.body == "" <==> "Body" !in request.value || request.value["Body"] == "")
    ensures request.Some? ==>
      && ("From" in request.value ==> r.from == request.value["From"])
      && ("From" !in request.value ==> r.from == "")
      && ("Body" in request.value ==> r.body == request.value["Body"])
      && ("Body" !in request.value ==> r.body == "")
      && ("MessageSid" in request.value ==> r.messageSid == request.value["MessageSid"])
      && ("MessageSid" !in request.value ==> r.messageSid == "")
      && ("ProfileName" in request.value ==> r.profileName == request.value["ProfileName"])
      && ("ProfileName" !in request.value ==> r.profileName == "")
      && ("WaId" in request.value ==> r.waId == request.value["WaId"])
      && ("WaId" !in request.value ==> r.waId == "")
  {
    match request
    case None => EmptyMessage
    case Some(form) =>
      IncomingMessage(
        FormField(form, "From"), FormField(form, "Body"), FormField(form, "MessageSid"),
        FormField(form, "ProfileName"), FormField(form, "WaId"))
  }

  /** The form a message is posted as. */
  function FormOf(m: IncomingMessage): map<string, string> {
    map["From" := m.from, "Body" := m.body, "MessageSid" := m.messageSid,
        "ProfileName" := m.profileName, "WaId" := m.waId]
  }

  /** Reading the form of a message gives back the message. */
  lemma ParseFormOf(m: IncomingMessage)
    ensures ParseIncomingMessage(Some(FormOf(m))) == m
  {
  }

  /** Keys other than the five are ignored. */
  lemma ParseIgnoresOtherKeys(form: map<string, string>, key: string, value: string)
    requires key !in {"From", "Body", "MessageSid", "ProfileName", "WaId"}
    ensures ParseIncomingMessage(Some(form[key := value])) == ParseIncomingMessage(Some(form))
  {
  }

  /**
   * The address `sendWhatsAppMessage` sends to: the destination with its
   * first `whatsapp:` removed, whitespace removed, trimmed, given a leading
   * `+`, and prefixed with `whatsapp:`. This is the store's phone
   * normalisation, computed a second time.
   */
  function Destination(to: string): (r: string)
    ensures r == Db.WhatsAppPrefix + Db.NormalizePhone(to)
    ensures |r| > |Db.WhatsAppPrefix| && r[|Db.WhatsAppPrefix|] == '+'
    ensures NoSpaces(r[|Db.WhatsAppPrefix|..])
  {
    var cleanPhone := Trim(RemoveSpaces(RemoveFirst(to, "whatsapp:")));
    var withPlus := if |cleanPhone| > 0 && cleanPhone[0] == '+' then cleanPhone else "+" + cleanPhone;
    "whatsapp:" + withPlus
  }

  /** A reply to a prefixed sender reaches the same address as one to the bare number. */
  lemma DestinationOfPrefixed(x: string)
    requires !Contains(x, Db.WhatsAppPrefix)
    ensures Destination(Db.WhatsAppPrefix + x) == Destination(x)
  {
    Db.PrefixedLikeBare(x);
  }

  /** A canonical phone only gets the `whatsapp:` prefix. */
  lemma DestinationOfCanonical(x: string)
    requires |x| > 0 && x[0] == '+' && NoSpaces(x) && !Contains(x, Db.WhatsAppPrefix)
    ensures Destination(x) == Db.WhatsAppPrefix + x
  {
    Db.NormalizeCanonical(x);
  }

  /** A message handed to the messaging API. */
  datatype Outgoing = Outgoing(to: string, body: string)
}
