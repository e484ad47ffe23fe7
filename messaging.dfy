/** whatsapp.send_text, as the sequence of messages the bot has sent. The HTTP POST and the
    swallowed network errors are not part of this model: every send is recorded. */
module Messaging {

  datatype Message = Message(phone: string, text: string)

  class Outbox {
    var sent: seq<Message>

    constructor ()
      ensures sent == []
    {
      sent := [];
    }

    /** send_text(phone, text) */
    method SendText(phone: string, text: string)
      modifies this
      ensures sent == old(sent) + [Message(phone, text)]
    {
      sent := sent + [Message(phone, text)];
    }
  }
}
