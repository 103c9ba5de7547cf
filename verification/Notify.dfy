/** Template sensitivity: which bodies are secrets, and what is stored in their place. */
module Categories {
  const SENSITIVE_TEMPLATE_PLACEHOLDER: map<string, string> := map[
    "auth_reset_v1" := "A password-reset link was sent to your email. It expires in 1 hour.",
    "proof_request_v1" := "An evidence-upload request was sent to your email.",
    "renewal_offer_v1" := "A renewal proposal was sent to your email."
  ]

  predicate IsSensitiveTemplate(templateCode: string) {
    templateCode in SENSITIVE_TEMPLATE_PLACEHOLDER
  }

  function RedactedBodyFor(templateCode: string): string {
    if templateCode in SENSITIVE_TEMPLATE_PLACEHOLDER
    then SENSITIVE_TEMPLATE_PLACEHOLDER[templateCode]
    else "[content delivered to your registered address]"
  }
}

/** The notification gateway: creating a message, and deciding what a delivery attempt will do. */
module Notify {
  import opened Common
  import opened Categories
  import opened Outbox

  datatype Channel = EMAIL | WHATSAPP | SMS | INAPP

  datatype MessageStatus = Queued | Sent | Delivered | MessageFailed

  datatype Message = Message(channel: Channel, templateCode: string, bodyRef: string, status: MessageStatus)

  datatype NotifyInput = NotifyInput(
    channel: Channel,
    templateCode: string,
    body: string,
    toAddress: Option<string>,
    preferWhatsapp: bool)
  {
    predicate Sensitive() {
      IsSensitiveTemplate(templateCode)
    }

    /** A secret never becomes a feed item. */
    predicate Allowed() {
      !(Sensitive() && channel == INAPP)
    }
  }

  /** What the recipient records and the provider settings say at delivery time. */
  datatype Env = Env(email: Option<string>, phone: Option<string>, whatsappConfigured: bool, consented: bool)

  datatype Decision =
    | Skip                                                  // the message is no longer queued
    | MarkFailed                                            // no deliverable body, or no address
    | Throw                                                 // no adapter, no handler, or another topic's handler failed
    | Deliver(to: string, body: string, channel: Channel)

  function NewMessage(input: NotifyInput): Message {
    Message(input.channel,
            input.templateCode,
            if input.Sensitive() then RedactedBodyFor(input.templateCode) else input.body,
            if input.channel == INAPP then Delivered else Queued)
  }

  function NewSendRow(input: NotifyInput, messageId: nat, now: int): Row {
    NewRow(NotificationSend,
           Payload(Some(messageId), input.toAddress, input.preferWhatsapp,
                   if input.Sensitive() then Some(input.body) else None),
           now,
           Some(SendKey(messageId)))
  }

  function ResolveChannel(channel: Channel, preferWhatsapp: bool, env: Env): Channel {
    var wanted := if preferWhatsapp then WHATSAPP else channel;
    if wanted == WHATSAPP && (!env.whatsappConfigured || !env.consented || !Truthy(env.phone)) then EMAIL else wanted
  }

  function Coalesce(a: Option<string>, b: Option<string>): Option<string> {
    if a.Some? then a else b
  }

  function Decide(m: Message, p: Payload, env: Env): Decision {
    if m.status != Queued then Skip
    else
      var sensitive := IsSensitiveTemplate(m.templateCode);
      if sensitive && p.body.None? then MarkFailed
      else
        var body := if sensitive then p.body.value else m.bodyRef;
        var channel := ResolveChannel(m.channel, p.preferWhatsapp, env);
        var to := if channel == WHATSAPP then env.phone else Coalesce(p.toAddress, env.email);
        if !Truthy(to) then MarkFailed
        else if channel != EMAIL && channel != WHATSAPP then Throw
        else Deliver(to.value, body, channel)
  }
}
