# ArtifyBot front-ends, modelled in Dafny

ArtifyBot is a Telegram bot. It takes a Russian text prompt, translates it, and
returns an image generated from the translation. The repository has two near-identical
front-ends: `telegram_bot.py` and `mina_styles.py`. The second one adds a `/style` menu.
Without the transport and the model calls, each front-end is a small stateful core:

- the **user registry** `users.txt`, one decimal user id per line, appended by `track_user`;
- the **admission gate** `user_status`, mapping a user id to the time the user is let through again;
- the **style table** `user_styles` (only `mina_styles.py`), mapping a user id to the chosen style;
- the **request pipeline** `handle_message`: track the user, check the gate, arm the lock, translate and
  generate (or ask for text), then re-arm the lock in `finally`;
- the privileged **`/shutdown`** and the **notification fan-out** `notify_users`.

Files:

- `users.dfy` (module `Users`): the registry's line list as a specification. It holds Python's
  `str(user_id)` as `RenderId`, proved injective. `Track` is the line list after `track_user`.
  `Records(lines, ids)` says the file holds exactly one line per tracked id.
- `gate.dfy` (module `Gate`): `Blocked` and `Block` over the `user_status` map, with the lock-window lemmas.
- `pipeline.dfy` (module `Pipeline`): shared by both front-ends. It defines the inbound `Message`, the
  `Clock` readings, the `Fault` of a model call and the `Event` log of outbound effects. It also holds the
  fixed reply texts and the event sequences of the text branch (`Generation`) and of the fan-out (`FanOut`).
- `telegram_bot.dfy` (module `TelegramBot`) and `mina_styles.dfy` (module `MinaStyles`): one class `Bot`
  per source file. Its fields are that file's global state: `fileExists` and `lines` for `users.txt`,
  `userStatus`, `userStyles`, and the event log. Each handler is a method that updates these fields.
  `mina_styles.dfy` also defines the prompt composition `Prompt`.
- `divergence.dfy` (module `Divergence`): the two front-ends on the same repeated message.

How the environment is modelled:

- **Time.** Each `time.time()` call the handler makes is passed in as an integer. For `handle_message`
  these are `Clock(atCheck, atArm, atRelease)`: gate check, lock at entry, re-arm in `finally`.
- **Translation.** `preprocess_text` is a parameter `translate: string -> string`.
- **Generation.** `generate_image` always returns `"generated_image.png"`. Its call is recorded as a
  `Generate(prompt)` event.
- **Exceptions.** Either model call may raise. This is the `Fault` parameter. When it raises, the lock
  is still re-armed and the handler ends with `Raised`.
- **Send results.** Whether each `send_message` goes through is a parameter `delivered: string -> bool`.
  Every attempt is logged as `Send(chat, text, ok)`.
- **Ghost state.** The registry's abstract value is the ghost set `tracked` of ids seen so far.
  `Valid()` ties `users.txt` to it: no line twice, and the lines are exactly the renderings of `tracked`.
  So `GetUserCount` is the number of distinct ids ever tracked.

The properties proved:

- `track_user` appends an id's line only if the line is new. It is idempotent, and it keeps the file
  duplicate-free.
- `get_user_count` is the number of distinct ids, and 0 before the file exists.
- A user is blocked exactly while `now <` the stored time. `block_user` overwrites only its own entry.
- `telegram_bot.py`: a blocked user gets only the rejection. Nothing else changes: no lock write, no model
  call. An admitted user ends with `status[id] = atRelease + 10`, with or without text and with or
  without an exception.
- `mina_styles.py`: a blocked user gets the rejection, and then the pipeline runs anyway.
  The final lock is `atRelease + 10` in every case.
- The prompt is the translation, followed by `"in " + style + " style"` when a style applies. There is no
  space before `in`. The "Без стиля" button stores `""`, but the code compares the stored style with the
  label `"Без стиля"`. So that button also adds a suffix, `"in  style"`, as does every other menu choice.
  The model keeps this behaviour as written.
- `/shutdown` fans out only for `ADMIN_USER_ID`: 464289049 in `mina_styles.py`, 1 in `telegram_bot.py`.
  Any other caller gets the refusal and no send is attempted.
- The fan-out attempts every registry line, in order, whichever sends fail.

## Model

| member | source | states |
|---|---|---|
| `Users.DigitsInjective` | mina_styles.py:42-44 | two natural numbers with the same decimal digits are equal |
| `Users.RenderIdInjective` | mina_styles.py:42-44 | `str(user_id)` is injective on integers, so one line of users.txt names one id |
| `Users.TrackContains` | mina_styles.py:39-47 | after `track_user(id)` the file holds `str(id)`; a present line leaves the file unchanged, a new one is appended once at the end |
| `Users.TrackIdempotent` | mina_styles.py:42-47 | tracking the same id twice gives the same file as tracking it once |
| `Users.TrackExtends` | mina_styles.py:42-44 | the registry only grows, by at most one line, and its old lines stay in place as a prefix |
| `Users.TrackPreservesDistinct` | mina_styles.py:42-44 | a duplicate-free registry stays duplicate-free after `track_user` |
| `Users.DistinctOccursOnce` | mina_styles.py:39-44 | in a duplicate-free registry every present line occurs exactly once and every other line zero times |
| `Users.TrackRecordsOnce` | telegram_bot.py:35-40 | after `track_user(id)` on a duplicate-free registry the id's line occurs exactly once |
| `Users.DistinctCardinality` | mina_styles.py:50-55 | a duplicate-free line list has as many distinct lines as lines |
| `Users.RenderedCardinality` | mina_styles.py:42-44 | a set of ids renders to exactly as many distinct lines as it has ids |
| `Users.RecordsCount` | mina_styles.py:50-56 | a registry recording a set of ids has exactly one line per id, so its length is the number of distinct ids |
| `Users.TrackPreservesRecords` | mina_styles.py:33-47 | `track_user(id)` turns a registry recording `ids` into one recording `ids + {id}` |
| `Gate.NeverBlockedIsFree` | mina_styles.py:68-73 | an id with no stored unblock time is never blocked |
| `Gate.FreeFromUnblockTime` | mina_styles.py:68-73 | a user is not blocked once the clock reaches the stored unblock time |
| `Gate.BlockWindow` | mina_styles.py:68-77 | after a block at time t for d, the user is blocked at q exactly when q < t + d, whatever was stored before; in particular on all of [t, t + d) |
| `Gate.BlockIsolated` | telegram_bot.py:72-73 | `block_user` adds or overwrites only the id's entry with now + duration; every other id's entry and blocked status are unchanged |
| `Gate.LastBlockWins` | mina_styles.py:136-162 | of the two lock writes in one request, the later one alone decides the stored time |
| `Pipeline.GenerationOrder` | mina_styles.py:139-156 | the text branch translates first; `generate_image` is called only with the composed prompt and only after translation succeeds; the photo is sent only when both model calls succeed; no text reply is sent |
| `Pipeline.FanOutAttempts` | mina_styles.py:80-87 | `notify_users` makes one attempt per registry line, and the k-th attempt goes to the k-th line with its own outcome |
| `Pipeline.FanOutReachesEveryone` | telegram_bot.py:76-83 | whichever sends fail, the recipients of the fan-out are exactly the registry lines in registry order |
| `MinaStyles.PromptExtends` | mina_styles.py:148-152 | the prompt starts with the translated text, and it equals that text exactly when no style is stored or the stored one is "Без стиля" |
| `MinaStyles.PromptSuffix` | mina_styles.py:148-150 | with a style s, exactly `"in " + s + " style"` follows the translated text; there is no separating space |
| `MinaStyles.NoStyleButtonStillSuffixes` | mina_styles.py:93-150 | after the "Без стиля" button, which stores `""`, the prompt is the translation followed by `"in  style"` |
| `MinaStyles.EveryChoiceIsStyled` | mina_styles.py:91-152 | after any of the four menu buttons, the styled branch is taken and the prompt differs from the translation |
| `MinaStyles.PromptPerUser` | mina_styles.py:109-111 | storing one user's style leaves every other user's prompt unchanged |
| `MinaStyles.Bot.constructor` | mina_styles.py:21-25 | the state at start-up: no users.txt, empty status and style maps, nothing sent |
| `MinaStyles.Bot.TrackUser` | mina_styles.py:33-47 | users.txt exists afterwards; its lines are `Track` of the old lines; the tracked ids gain the id; the invariant is kept; nothing else changes |
| `MinaStyles.Bot.GetUserCount` | mina_styles.py:50-56 | the count is the number of lines and the number of distinct ids tracked, and 0 while there is no file |
| `MinaStyles.Bot.GetAllUsers` | mina_styles.py:59-65 | the file's lines in order, duplicate-free, exactly one per tracked id |
| `MinaStyles.Bot.IsUserBlocked` | mina_styles.py:68-73 | the query agrees with `Gate.Blocked`: an unblock time is stored and now is before it |
| `MinaStyles.Bot.BlockUser` | mina_styles.py:76-77 | `user_status` becomes `Gate.Block` of the old map; nothing else changes |
| `MinaStyles.Bot.NotifyUsers` | mina_styles.py:80-87 | the log gains exactly `FanOut` of the registry lines: one attempt per line, in order, failures included; no state changes |
| `MinaStyles.Bot.Style` | mina_styles.py:90-101 | `/style` replies with the menu prompt and changes nothing else |
| `MinaStyles.Bot.Button` | mina_styles.py:104-113 | the pressing user's style becomes the callback data, unconditionally; every other user's entry is unchanged; the query is answered, then the message is edited |
| `MinaStyles.Bot.Shutdown` | mina_styles.py:116-123 | with caller 464289049 the log gains the shutdown fan-out; any other caller gets only the refusal, with no send attempted |
| `MinaStyles.Bot.HandleMessage` | mina_styles.py:126-162 | the sender is tracked; a blocked sender gets the rejection and processing goes on; the final lock is atRelease + 10 in every case; with text: translate, generate from `Prompt` of the translation, send the photo, cut short where a model call raises; without text: only the request for text |
| `MinaStyles.Bot.Start` | mina_styles.py:165-167 | `/start` replies with the greeting quoting the number of distinct tracked users |
| `MinaStyles.Bot.NotifyOnStart` | mina_styles.py:170-172 | the start-up notice goes to every registry line in order |
| `TelegramBot.Bot.constructor` | telegram_bot.py:20-22 | the state at start-up: no users.txt, empty status map, nothing sent |
| `TelegramBot.Bot.TrackUser` | telegram_bot.py:29-43 | users.txt exists afterwards; its lines are `Track` of the old lines; the tracked ids gain the id; the invariant is kept; nothing else changes |
| `TelegramBot.Bot.GetUserCount` | telegram_bot.py:46-52 | the count is the number of lines and the number of distinct ids tracked, and 0 while there is no file |
| `TelegramBot.Bot.GetAllUsers` | telegram_bot.py:55-61 | the file's lines in order, duplicate-free, exactly one per tracked id |
| `TelegramBot.Bot.IsUserBlocked` | telegram_bot.py:64-69 | the query agrees with `Gate.Blocked`: an unblock time is stored and now is before it |
| `TelegramBot.Bot.BlockUser` | telegram_bot.py:72-73 | `user_status` becomes `Gate.Block` of the old map; nothing else changes |
| `TelegramBot.Bot.NotifyUsers` | telegram_bot.py:76-83 | the log gains exactly `FanOut` of the registry lines: one attempt per line, in order, failures included; no state changes |
| `TelegramBot.Bot.Shutdown` | telegram_bot.py:86-93 | with caller 1 the log gains the shutdown fan-out; any other caller gets only the refusal, with no send attempted |
| `TelegramBot.Bot.HandleMessage` | telegram_bot.py:96-129 | the sender is tracked even when rejected; a blocked sender gets exactly the rejection, `Rejected`, and `user_status` unchanged; otherwise the final lock is atRelease + 10, with text the model calls run on the translation with no suffix and the photo is sent (cut short where a call raises), without text only the request for text |
| `TelegramBot.Bot.Start` | telegram_bot.py:132-134 | `/start` replies with the greeting quoting the number of distinct tracked users |
| `TelegramBot.Bot.NotifyOnStart` | telegram_bot.py:137-139 | the start-up notice goes to every registry line in order |
| `Divergence.RepeatWithinLock` | mina_styles.py:131-136 | a repeat message inside the lock window: `mina_styles.py` sends the rejection, then translates, generates and sends the photo; `telegram_bot.py` sends only the rejection |

## Left out

- The Telegram transport: the `Application` builder, handler registration, `run_polling`, `post_init`,
  the inline keyboard layout, and the reply markup. Replies, sends, `query.answer` and
  `edit_message_text` are recorded as events only.
- `image_generator.py`: model loading, GPU placement, translation and diffusion are outside the model.
  `preprocess_text` is a total function parameter. `generate_image` is the fixed path "generated_image.png".
- async/await interleaving: every handler runs atomically. The races between two requests from the same
  user, and the overwrite of the shared image file, are not modelled.
- File I/O: `users.txt` is a flag saying whether it exists, plus its list of lines. Newline handling and
  `splitlines` are not modelled. The model starts before the file exists. A file edited by hand, or keeping
  lines that no tracked id produced, is outside the invariant.
- `time.time()` returns a float; the model uses integer time readings; the comparisons are the same.
- Logging calls are not modelled.
- An exception from `reply_photo` or `reply_text` inside `handle_message` is not modelled. Only the two
  model calls can raise. The exception itself is reported as the `Raised` outcome, not propagated.
- The unused `styles` dictionary (mina_styles.py:26) is not modelled.
