/** The plain front-end: a registry, an admission gate and a request
    pipeline that turns away a blocked user before doing anything else. */
module TelegramBot {

  import Users
  import Gate
  import opened Pipeline

  const ADMIN_USER_ID := 1
  /** Seconds a user is locked out around each request. */
  const LOCK_DURATION := 10

  /** The module's global state: the users.txt file, the user_status map, and
      the outbound effects so far. */
  class Bot {
    var fileExists: bool
    var lines: seq<string>
    /** The ids tracked so far, of which users.txt holds one line each. */
    ghost var tracked: set<int>
    var userStatus: map<int, int>
    var log: seq<Event>

    ghost predicate Valid()
      reads this
    {
      && (fileExists || lines == [])
      && Users.Records(lines, tracked)
    }

    /** A bot started before any users.txt exists. */
    constructor ()
      ensures Valid()
      ensures !fileExists && lines == [] && tracked == {}
      ensures userStatus == map[] && log == []
    {
      fileExists := false;
      lines := [];
      tracked := {};
      userStatus := map[];
      log := [];
    }

    /** track_user: create users.txt if missing, then append the id's line if it is new. */
    method TrackUser(id: int)
      requires Valid()
      modifies this
      ensures Valid()
      ensures fileExists && lines == Users.Track(old(lines), id)
      ensures tracked == old(tracked) + {id}
      ensures userStatus == old(userStatus) && log == old(log)
    {
      if !fileExists {
        fileExists := true;
      }
      var users := lines;
      var line := Users.RenderId(id);
      if line !in users {
        lines := lines + [line];
      }
      Users.TrackPreservesRecords(old(lines), tracked, id);
      tracked := tracked + {id};
    }

    /** get_user_count: the number of lines, which is the number of distinct ids tracked. */
    function GetUserCount(): (count: nat)
      reads this
      requires Valid()
      ensures count == |lines|
      ensures count == |tracked|
      ensures !fileExists ==> count == 0
    {
      Users.RecordsCount(lines, tracked);
      if fileExists then |lines| else 0
    }

    /** get_all_users: the registry lines in file order, one per tracked id. */
    function GetAllUsers(): (users: seq<string>)
      reads this
      requires Valid()
      ensures users == lines
      ensures Users.Distinct(users) && Users.LineSet(users) == Users.Rendered(tracked)
    {
      if fileExists then lines else []
    }

    /** is_user_blocked at wall-clock time `now`. */
    function IsUserBlocked(id: int, now: int): (blocked: bool)
      reads this
      ensures blocked == Gate.Blocked(userStatus, id, now)
    {
      if id in userStatus then
        var blockUntil := userStatus[id];
        now < blockUntil
      else
        false
    }

    /** block_user at wall-clock time `now`: overwrite the id's unblock time. */
    method BlockUser(id: int, duration: int, now: int)
      modifies this
      ensures userStatus == Gate.Block(old(userStatus), id, now, duration)
      ensures fileExists == old(fileExists) && lines == old(lines) && tracked == old(tracked)
      ensures log == old(log)
    {
      userStatus := userStatus[id := now + duration];
    }

    /** notify_users: try a send to every registry line in order; `delivered`
        says which sends go through, and a failed one does not stop the loop. */
    method NotifyUsers(message: string, delivered: string -> bool)
      requires Valid()
      modifies this
      ensures Valid()
      ensures log == old(log) + FanOut(old(lines), message, delivered)
      ensures fileExists == old(fileExists) && lines == old(lines) && tracked == old(tracked)
      ensures userStatus == old(userStatus)
    {
      var users := GetAllUsers();
      for i := 0 to |users|
        invariant log == old(log) + FanOut(users[..i], message, delivered)
        invariant fileExists == old(fileExists) && lines == old(lines) && tracked == old(tracked)
        invariant userStatus == old(userStatus)
      {
        var userId := users[i];
        var ok := delivered(userId);
        log := log + [Send(userId, message, ok)];
        assert users[..i + 1][..i] == users[..i];
      }
      assert users[..|users|] == users;
    }

    /** shutdown: only the administrator triggers the fan-out; anyone else gets the refusal. */
    method Shutdown(callerId: int, delivered: string -> bool)
      requires Valid()
      modifies this
      ensures Valid()
      ensures callerId == ADMIN_USER_ID ==> log == old(log) + FanOut(old(lines), SHUTDOWN_TEXT, delivered)
      ensures callerId != ADMIN_USER_ID ==> log == old(log) + [ReplyText(REFUSAL_TEXT)]
      ensures callerId != ADMIN_USER_ID ==> Recipients(log[|old(log)|..]) == []
      ensures fileExists == old(fileExists) && lines == old(lines) && tracked == old(tracked)
      ensures userStatus == old(userStatus)
    {
      if callerId == ADMIN_USER_ID {
        NotifyUsers(SHUTDOWN_TEXT, delivered);
      } else {
        log := log + [ReplyText(REFUSAL_TEXT)];
        NoSendsNoRecipients(log[|old(log)|..]);
      }
    }

    /** handle_message: register the sender; a blocked sender gets the rejection
        and the handler returns; otherwise the lock is armed, the text branch
        runs, and the lock is re-armed on the way out even if a model call raised. */
    method HandleMessage(m: Message, clock: Clock, translate: string -> string, fault: Fault)
      returns (outcome: Outcome)
      requires Valid()
      modifies this
      ensures Valid()
      ensures fileExists && lines == Users.Track(old(lines), m.sender)
      ensures tracked == old(tracked) + {m.sender}
      ensures Gate.Blocked(old(userStatus), m.sender, clock.atCheck) ==>
        && outcome == Rejected
        && userStatus == old(userStatus)
        && log == old(log) + [ReplyText(SPAM_TEXT)]
      ensures !Gate.Blocked(old(userStatus), m.sender, clock.atCheck) ==>
        && userStatus == Gate.Block(old(userStatus), m.sender, clock.atRelease, LOCK_DURATION)
        && log == old(log) + (if HasText(m) then Generation(m.text.value, translate(m.text.value), fault)
                              else [ReplyText(ASK_TEXT)])
        && outcome == (if HasText(m) && fault != NoFault then Raised(fault) else Completed)
    {
      var userId := m.sender;
      TrackUser(userId);
      if IsUserBlocked(userId, clock.atCheck) {
        log := log + [ReplyText(SPAM_TEXT)];
        return Rejected;
      }
      BlockUser(userId, LOCK_DURATION, clock.atArm);
      outcome := Completed;
      // try:
      if HasText(m) {
        var userInput := m.text.value;
        log := log + [Translate(userInput)];
        if fault == TranslationFails {
          outcome := Raised(fault);
        } else {
          var processedText := translate(userInput);
          log := log + [Generate(processedText)];
          if fault == GenerationFails {
            outcome := Raised(fault);
          } else {
            log := log + [ReplyPhoto(IMAGE_PATH)];
          }
        }
      } else {
        log := log + [ReplyText(ASK_TEXT)];
      }
      // finally:
      BlockUser(userId, LOCK_DURATION, clock.atRelease);
    }

    /** start: greet with the current number of registered users. */
    method Start()
      requires Valid()
      modifies this
      ensures Valid()
      ensures log == old(log) + [ReplyText(Greeting(|old(tracked)|))]
      ensures fileExists == old(fileExists) && lines == old(lines) && tracked == old(tracked)
      ensures userStatus == old(userStatus)
    {
      var count := GetUserCount();
      log := log + [ReplyText(Greeting(count))];
    }

    /** notify_on_start: the start-up fan-out. */
    method NotifyOnStart(delivered: string -> bool)
      requires Valid()
      modifies this
      ensures Valid()
      ensures log == old(log) + FanOut(old(lines), RESTART_TEXT, delivered)
      ensures fileExists == old(fileExists) && lines == old(lines) && tracked == old(tracked)
      ensures userStatus == old(userStatus)
    {
      NotifyUsers(RESTART_TEXT, delivered);
    }
  }
}
