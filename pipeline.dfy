/** What the two bot front-ends share: the inbound message, the clock readings
    a handler takes, the failures of the two model calls, and the outbound
    effects recorded as an event log. */
module Pipeline {

  import Users

  datatype Option<T> = None | Some(value: T)

  /** An inbound chat message: the sender's id and the text, if any. */
  datatype Message = Message(sender: int, text: Option<string>)

  /** Python's `update.message and update.message.text`: absent and empty text are both falsy. */
  predicate HasText(m: Message) {
    m.text.Some? && m.text.value != ""
  }

  /** The readings of the wall clock a handler takes: when the gate is
      checked, when the lock is armed at entry, and when it is re-armed on exit. */
  datatype Clock = Clock(atCheck: int, atArm: int, atRelease: int)

  /** Which model call, if any, raises while a request is processed. */
  datatype Fault = NoFault | TranslationFails | GenerationFails

  /** How a handler ends: normally, by the early return of a blocked user, or
      by a collaborator's exception propagating out of it. */
  datatype Outcome = Completed | Rejected | Raised(fault: Fault)

  /** The effects a handler has on the outside world, in the order they happen. */
  datatype Event =
    | ReplyText(text: string)                            // update.message.reply_text
    | ReplyPhoto(path: string)                           // update.message.reply_photo
    | Send(chatId: string, text: string, delivered: bool) // bot.send_message, and whether it went through
    | Translate(input: string)                           // preprocess_text
    | Generate(prompt: string)                           // generate_image
    | AnswerQuery                                        // query.answer
    | EditMessageText(text: string)                      // query.edit_message_text

  /** generate_image always saves to, and returns, this fixed path. */
  const IMAGE_PATH := "generated_image.png"

  /** The fixed texts both front-ends send. */
  const SPAM_TEXT := "Неприятно когда спамят? Держи обратно!"
  const ASK_TEXT := "Пожалуйста, отправьте текст для генерации изображения."
  const REFUSAL_TEXT := "У вас нет прав на выполнение этой команды."
  const SHUTDOWN_TEXT := "Бот временно выключается. Свяжитесь с администратором для его запуска."
  const RESTART_TEXT := "Бот снова активен. Вы можете отправлять запросы на генерацию изображений."

  /** The /start greeting, which quotes the number of registered users. */
  function Greeting(count: nat): string {
    "Привет! Введи текст для генерации изображения. Сейчас у нас " + Users.RenderId(count) + " пользователей!"
  }

  /** The events of the text branch of handle_message: translate the input,
      generate from the prompt, reply with the image; an exception from
      either model call ends the branch where it is raised. */
  function Generation(input: string, prompt: string, fault: Fault): seq<Event> {
    match fault
    case TranslationFails => [Translate(input)]
    case GenerationFails => [Translate(input), Generate(prompt)]
    case NoFault => [Translate(input), Generate(prompt), ReplyPhoto(IMAGE_PATH)]
  }

  /** Generation is called only with the given prompt, and only when translation succeeded;
      the photo is sent only when both model calls succeeded. */
  lemma GenerationOrder(input: string, prompt: string, fault: Fault)
    ensures Generation(input, prompt, fault)[0] == Translate(input)
    ensures forall p :: Generate(p) in Generation(input, prompt, fault) <==> p == prompt && fault != TranslationFails
    ensures ReplyPhoto(IMAGE_PATH) in Generation(input, prompt, fault) <==> fault == NoFault
    ensures forall t :: ReplyText(t) !in Generation(input, prompt, fault)
  {
  }

  /** The events of notify_users: one send attempt per registry line, in order;
      a failed attempt is logged and the loop goes on. */
  function FanOut(users: seq<string>, text: string, delivered: string -> bool): seq<Event>
    decreases |users|
  {
    if users == [] then []
    else
      var last := users[|users| - 1];
      FanOut(users[..|users| - 1], text, delivered) + [Send(last, text, delivered(last))]
  }

  /** The chat ids that the send attempts of an event log go to, in order. */
  function Recipients(events: seq<Event>): seq<string>
    decreases |events|
  {
    if events == [] then []
    else
      var init, last := events[..|events| - 1], events[|events| - 1];
      if last.Send? then Recipients(init) + [last.chatId] else Recipients(init)
  }

  /** The k-th event of the fan-out is the attempt to send to the k-th registry line. */
  lemma {:induction false} FanOutAttempts(users: seq<string>, text: string, delivered: string -> bool)
    ensures |FanOut(users, text, delivered)| == |users|
    ensures forall k :: 0 <= k < |users| ==>
      FanOut(users, text, delivered)[k] == Send(users[k], text, delivered(users[k]))
    decreases |users|
  {
    if users != [] {
      var init := users[..|users| - 1];
      FanOutAttempts(init, text, delivered);
      forall k | 0 <= k < |users|
        ensures FanOut(users, text, delivered)[k] == Send(users[k], text, delivered(users[k]))
      {
        if k < |init| {
          assert users[k] == init[k];
        }
      }
    }
  }

  /** Whichever sends fail, the fan-out attempts every registry line, in registry order. */
  lemma {:induction false} FanOutReachesEveryone(users: seq<string>, text: string, delivered: string -> bool)
    ensures Recipients(FanOut(users, text, delivered)) == users
    decreases |users|
  {
    if users != [] {
      var init := users[..|users| - 1];
      var events := FanOut(users, text, delivered);
      FanOutReachesEveryone(init, text, delivered);
      assert events[..|events| - 1] == FanOut(init, text, delivered);
      assert users == init + [users[|users| - 1]];
    }
  }

  /** A log without send attempts has no recipients. */
  lemma NoSendsNoRecipients(events: seq<Event>)
    requires forall k :: 0 <= k < |events| ==> !events[k].Send?
    ensures Recipients(events) == []
    decreases |events|
  {
    if events != [] {
      NoSendsNoRecipients(events[..|events| - 1]);
    }
  }
}
