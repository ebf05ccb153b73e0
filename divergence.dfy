/** The two front-ends side by side on the same traffic: a second message
    from a user who is still locked out. */
module Divergence {

  import opened Pipeline
  import MinaStyles
  import TelegramBot

  /** A user with no style sends a text at time 0 (handled by time 1, so locked
      until 11) and the same text again at time 5. The styles front-end answers
      the second message with the rejection and still translates, generates and
      sends the photo; the plain front-end answers it with the rejection alone. */
  method RepeatWithinLock(id: int, text: string, translate: string -> string)
    returns (styled: seq<Event>, plain: seq<Event>)
    requires text != ""
    ensures styled == [ReplyText(SPAM_TEXT), Translate(text), Generate(translate(text)), ReplyPhoto(IMAGE_PATH)]
    ensures plain == [ReplyText(SPAM_TEXT)]
  {
    var m := Message(id, Some(text));
    var first, second := Clock(0, 0, 1), Clock(5, 5, 6);

    var a := new MinaStyles.Bot();
    var _ := a.HandleMessage(m, first, translate, NoFault);
    var before := |a.log|;
    var _ := a.HandleMessage(m, second, translate, NoFault);
    styled := a.log[before..];

    var b := new TelegramBot.Bot();
    var _ := b.HandleMessage(m, first, translate, NoFault);
    before := |b.log|;
    var _ := b.HandleMessage(m, second, translate, NoFault);
    plain := b.log[before..];
  }
}
