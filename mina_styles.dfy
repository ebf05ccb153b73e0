/** The front-end with image styles: the same registry and admission gate,
    a per-user style table that is appended to the prompt, and a request
    pipeline that answers a blocked user with the rejection and then goes on. */
module MinaStyles {

  import Users
  import Gate
  import opened Pipeline

  const ADMIN_USER_ID := 464289049
  /** Seconds a user is locked out around each request. */
  const LOCK_DURATION := 10

  /** The label of the "no style" button, against which the stored style is compared. */
  const NO_STYLE_LABEL := "Без стиля"
  /** The callback data of the four buttons of the /style menu, in menu order. */
  const STYLE_CHOICES: seq<string> := ["", "realistic", "cartoon", "black and white"]
  const STYLE_MENU_TEXT := "Выберите стиль изображения:"
  const SELECTED_TEXT := "Выбранный стиль: "

  /** The prompt handed to generate_image for the translated text `processed`:
      the stored style, unless it equals the "no style" label, is appended
      with no separating space. */
  function Prompt(styles: map<int, string>, id: int, processed: string): string {
    if Styled(styles, id) then processed + "in " + styles[id] + " style" else processed
  }

  /** A style applies to the user: one is stored and it is not the "no style" label. */
  predicate Styled(styles: map<int, string>, id: int) {
    id in styles && styles[id] != NO_STYLE_LABEL
  }

  /** The prompt always starts with the translated text, and equals it exactly
      when no style applies. */
  lemma PromptExtends(styles: map<int, string>, id: int, processed: string)
    ensures |Prompt(styles, id, processed)| >= |processed|
    ensures Prompt(styles, id, processed)[..|processed|] == processed
    ensures Prompt(styles, id, processed) == processed <==> !Styled(styles, id)
  {
  }

  /** With a style s, what follows the translated text is exactly "in s style":
      its first character is the 'i' of "in", not a space. */
  lemma PromptSuffix(styles: map<int, string>, id: int, processed: string)
    requires Styled(styles, id)
    ensures Prompt(styles, id, processed)[|processed|..] == "in " + styles[id] + " style"
    ensures Prompt(styles, id, processed)[|processed|] == 'i'
  {
    var p := Prompt(styles, id, processed);
    assert p == processed + ("in " + styles[id] + " style");
  }

  /** The "no style" button stores the empty string, which differs from the
      label the prompt code compares with, so the suffix "in  style" is still added. */
  lemma NoStyleButtonStillSuffixes(styles: map<int, string>, id: int, processed: string)
    ensures Prompt(styles[id := STYLE_CHOICES[0]], id, processed) == processed + "in  style"
  {
  }

  /** Whichever menu button a user pressed last, a suffix is appended to that user's prompts. */
  lemma EveryChoiceIsStyled(styles: map<int, string>, id: int, choice: string, processed: string)
    requires choice in STYLE_CHOICES
    ensures Styled(styles[id := choice], id)
    ensures Prompt(styles[id := choice], id, processed) != processed
  {
    PromptExtends(styles[id := choice], id, processed);
  }

  /** A user's choice of style does not change anyone else's prompt. */
  lemma PromptPerUser(styles: map<int, string>, id: int, data: string, other: int, processed: string)
    requires other != id
    ensures Prompt(styles[id := data], other, processed) == Prompt(styles, other, processed)
  {
  }

  /** The module's global state: the users.txt file, the user_status and
      user_styles maps, and the outbound effects so far. */
  class Bot {
    var fileExists: bool
    var lines: seq<string>
    /** The ids tracked so far, of which users.txt holds one line each. */
    ghost var tracked: set<int>
    var userStatus: map<int, int>
    var userStyles: map<int, string>
    var log: seq<Event>

    ghost predicate Valid()
      reads this
    {
      && (fileExists || lines == [])
      && Users.Records(lines, tracked)
    }

    /** A bot started before any users.txt exists. */
    constructor ()
      ensures Valid()
      ensures !fileExists && lines == [] && tracked == {}
      ensures userStatus == map[] && userStyles == map[] && log == []
    {
      fileExists := false;
      lines := [];
      tracked := {};
      userStatus := map[];
      userStyles := map[];
      log := [];
    }

    /** track_user: create users.txt if missing, then append the id's line if it is new. */
    method TrackUser(id: int)
      requires Valid()
      modifies this
      ensures Valid()
      ensures fileExists && lines == Users.Track(old(lines), id)
      ensures tracked == old(tracked) + {id}
      ensures userStatus == old(userStatus) && userStyles == old(userStyles) && log == old(log)
    {
      if !fileExists {
        fileExists := true;
      }
      var users := lines;
      var line := Users.RenderId(id);
      if line !in users {
        lines := lines + [line];
      }
      Users.TrackPreservesRecords(old(lines), tracked, id);
      tracked := tracked + {id};
    }

    /** get_user_count: the number of lines, which is the number of distinct ids tracked. */
    function GetUserCount(): (count: nat)
      reads this
      requires Valid()
      ensures count == |lines|
      ensures count == |tracked|
      ensures !fileExists ==> count == 0
    {
      Users.RecordsCount(lines, tracked);
      if fileExists then |lines| else 0
    }

    /** get_all_users: the registry lines in file order, one per tracked id. */
    function GetAllUsers(): (users: seq<string>)
      reads this
      requires Valid()
      ensures users == lines
      ensures Users.Distinct(users) && Users.LineSet(users) == Users.Rendered(tracked)
    {
      if fileExists then lines else []
    }

    /** is_user_blocked at wall-clock time `now`. */
    function IsUserBlocked(id: int, now: int): (blocked: bool)
      reads this
      ensures blocked == Gate.Blocked(userStatus, id, now)
    {
      if id in userStatus then
        var blockUntil := userStatus[id];
        now < blockUntil
      else
        false
    }

    /** block_user at wall-clock time `now`: overwrite the id's unblock time. */
    method BlockUser(id: int, duration: int, now: int)
      modifies this
      ensures userStatus == Gate.Block(old(userStatus), id, now, duration)
      ensures fileExists == old(fileExists) && lines == old(lines) && tracked == old(tracked)
      ensures userStyles == old(userStyles) && log == old(log)
    {
      userStatus := userStatus[id := now + duration];
    }

    /** notify_users: try a send to every registry line in order; `delivered`
        says which sends go through, and a failed one does not stop the loop. */
    method NotifyUsers(message: string, delivered: string -> bool)
      requires Valid()
      modifies this
      ensures Valid()
      ensures log == old(log) + FanOut(old(lines), message, delivered)
      ensures fileExists == old(fileExists) && lines == old(lines) && tracked == old(tracked)
      ensures userStatus == old(userStatus) && userStyles == old(userStyles)
    {
      var users := GetAllUsers();
      for i := 0 to |users|
        invariant log == old(log) + FanOut(users[..i], message, delivered)
        invariant fileExists == old(fileExists) && lines == old(lines) && tracked == old(tracked)
        invariant userStatus == old(userStatus) && userStyles == old(userStyles)
      {
        var userId := users[i];
        var ok := delivered(userId);
        log := log + [Send(userId, message, ok)];
        assert users[..i + 1][..i] == users[..i];
      }
      assert users[..|users|] == users;
    }

    /** shutdown: only the administrator triggers the fan-out; anyone else gets the refusal. */
    method Shutdown(callerId: int, delivered: string -> bool)
      requires Valid()
      modifies this
      ensures Valid()
      ensures callerId == ADMIN_USER_ID ==> log == old(log) + FanOut(old(lines), SHUTDOWN_TEXT, delivered)
      ensures callerId != ADMIN_USER_ID ==> log == old(log) + [ReplyText(REFUSAL_TEXT)]
      ensures callerId != ADMIN_USER_ID ==> Recipients(log[|old(log)|..]) == []
      ensures fileExists == old(fileExists) && lines == old(lines) && tracked == old(tracked)
      ensures userStatus == old(userStatus) && userStyles == old(userStyles)
    {
      if callerId == ADMIN_USER_ID {
        NotifyUsers(SHUTDOWN_TEXT, delivered);
      } else {
        log := log + [ReplyText(REFUSAL_TEXT)];
        NoSendsNoRecipients(log[|old(log)|..]);
      }
    }

    /** style: present the menu of styles (its keyboard layout is not modelled). */
    method Style()
      modifies this
      ensures log == old(log) + [ReplyText(STYLE_MENU_TEXT)]
      ensures fileExists == old(fileExists) && lines == old(lines) && tracked == old(tracked)
      ensures userStatus == old(userStatus) && userStyles == old(userStyles)
    {
      log := log + [ReplyText(STYLE_MENU_TEXT)];
    }

    /** button: store the callback data as the pressing user's style, overwriting
        any earlier choice of that user and no one else's. */
    method Button(id: int, data: string)
      modifies this
      ensures userStyles == old(userStyles)[id := data]
      ensures forall other :: other != id ==>
        (other in userStyles <==> other in old(userStyles)) &&
        (other in userStyles ==> userStyles[other] == old(userStyles)[other])
      ensures log == old(log) + [AnswerQuery, EditMessageText(SELECTED_TEXT + data)]
      ensures fileExists == old(fileExists) && lines == old(lines) && tracked == old(tracked)
      ensures userStatus == old(userStatus)
    {
      log := log + [AnswerQuery];
      var selectedStyle := data;
      userStyles := userStyles[id := selectedStyle];
      log := log + [EditMessageText(SELECTED_TEXT + selectedStyle)];
    }

    /** handle_message: register the sender; a blocked sender gets the rejection
        but the handler goes on; the lock is armed, the text branch runs with the
        sender's style appended to the prompt, and the lock is re-armed on the way
        out even if a model call raised. */
    method HandleMessage(m: Message, clock: Clock, translate: string -> string, fault: Fault)
      returns (outcome: Outcome)
      requires Valid()
      modifies this
      ensures Valid()
      ensures fileExists && lines == Users.Track(old(lines), m.sender)
      ensures tracked == old(tracked) + {m.sender}
      ensures userStatus == Gate.Block(old(userStatus), m.sender, clock.atRelease, LOCK_DURATION)
      ensures userStyles == old(userStyles)
      ensures log == old(log)
        + (if Gate.Blocked(old(userStatus), m.sender, clock.atCheck) then [ReplyText(SPAM_TEXT)] else [])
        + (if HasText(m) then Generation(m.text.value, Prompt(old(userStyles), m.sender, translate(m.text.value)), fault)
           else [ReplyText(ASK_TEXT)])
      ensures outcome == (if HasText(m) && fault != NoFault then Raised(fault) else Completed)
    {
      var userId := m.sender;
      TrackUser(userId);
      if IsUserBlocked(userId, clock.atCheck) {
        log := log + [ReplyText(SPAM_TEXT)];
      }
      BlockUser(userId, LOCK_DURATION, clock.atArm);
      outcome := Completed;
      // try:
      if HasText(m) {
        var userInput := m.text.value;
        log := log + [Translate(userInput)];
        if fault == TranslationFails {
          outcome := Raised(fault);
        } else {
          var processedText := translate(userInput);
          var imagePrompt;
          if userId in userStyles && userStyles[userId] != NO_STYLE_LABEL {
            var selectedStyle := userStyles[userId];
            imagePrompt := processedText + "in " + selectedStyle + " style";
          } else {
            imagePrompt := processedText;
          }
          log := log + [Generate(imagePrompt)];
          if fault == GenerationFails {
            outcome := Raised(fault);
          } else {
            log := log + [ReplyPhoto(IMAGE_PATH)];
          }
        }
      } else {
        log := log + [ReplyText(ASK_TEXT)];
      }
      // finally:
      BlockUser(userId, LOCK_DURATION, clock.atRelease);
    }

    /** start: greet with the current number of registered users. */
    method Start()
      requires Valid()
      modifies this
      ensures Valid()
      ensures log == old(log) + [ReplyText(Greeting(|old(tracked)|))]
      ensures fileExists == old(fileExists) && lines == old(lines) && tracked == old(tracked)
      ensures userStatus == old(userStatus) && userStyles == old(userStyles)
    {
      var count := GetUserCount();
      log := log + [ReplyText(Greeting(count))];
    }

    /** notify_on_start: the start-up fan-out. */
    method NotifyOnStart(delivered: string -> bool)
      requires Valid()
      modifies this
      ensures Valid()
      ensures log == old(log) + FanOut(old(lines), RESTART_TEXT, delivered)
      ensures fileExists == old(fileExists) && lines == old(lines) && tracked == old(tracked)
      ensures userStatus == old(userStatus) && userStyles == old(userStyles)
    {
      NotifyUsers(RESTART_TEXT, delivered);
    }
  }
}
