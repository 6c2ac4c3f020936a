# parking-bot raffle core — a Dafny model

parking-bot is a Telegram bot for a group chat where people hand over parking
places. When someone writes that a place is free, the bot classifies the message.
For a free place it posts an announcement with a "🙋 Я хочу!" button and shows a
countdown. When the countdown ends, it draws a winner among those who pressed the
button. A user who has won an active raffle cannot join another one. Raffles not
created today are purged, and the store is capped at `MAX_ACTIVE_RAFFLES` entries
(oldest first).

The project models four parts of the bot:

- **`Raffles`** (`src/handlers.py`) — the raffle store. It holds `active_raffles`,
  kept in the insertion order of a Python dict, and `active_winners`. It is a class,
  `RaffleStore`, with one method per operation:
  - joining from a button press;
  - evicting the oldest raffle;
  - purging raffles not created today;
  - finishing a raffle;
  - refreshing the countdown;
  - creating a raffle.

  The invariant `Valid()` is kept by every method: the order lists every raffle
  exactly once, participants have no duplicates, a winner is a participant, and
  timer serials are fresh.
- **`RaffleView`** (`src/handlers.py`) — the pure helpers:
  - the raffle id `f"{chat_id}_{message_id}"`;
  - the callback data `want_<id>`;
  - `format_time_remaining`, `format_raffle_message` and the button text;
  - the clamped remaining time.

  Each text has a reader, and lemmas show that the reader recovers exactly what was
  rendered.
- **`ParkingClassifier`** (`src/gigachat_client.py`) — `check_parking_message`.
  - It finds the digit runs, does the keyword fast path, and otherwise asks the
    language model.
  - The language model is a function parameter `ask`. Its reply is either an answer
    string or a failure.
- **`Security`** (`src/security.py`) — the access predicates. The owner's id and the
  allow-list are parameters.

Supporting modules:

- `Wrappers` defines `Option`.
- `Decimal` gives `str(int)`/`int(str)` on decimal digits, with a round-trip lemma.
- `Text` gives the Python string operations used: `startswith`, `split(sep, 1)`,
  `in`, `strip()` and `lower()`.

Inputs that the source reads from the environment are parameters:

- `time.time()` is `now: real`, and `date.today()` is `today: Date`.
- `random.choice(participants)` is `participants[pick % |participants|]` for a
  caller-supplied `pick`.
- `MAX_ACTIVE_RAFFLES` is `maxActive` (default 5, `src/config.py:16`), and
  `RAFFLE_TIMER_SECONDS` is `timerSeconds` (default 120, `src/config.py:13`).
- Whether a Telegram call succeeded is a parameter:
  - `reply` is the id of the posted reply, none when `reply_to` raised;
  - `sent` says whether `send_message` returned.

Timers are modelled as handles, `TimerHandle(serial, delay)`. The store issues them
with fresh serials and records cancelled handles in the set `cancelled`.

A failed announcement post is not guarded: `reply_to` (`src/handlers.py:48`) may
raise, and an exception there ends the handler after cleanup and eviction have run,
so nothing is recorded. `RaffleStore.HandleTextMessage` does exactly that when
`reply` is none.

Where the tests and the code disagree, the model follows the code:

- **Finishing a raffle keeps the entry.** `src/handlers.py:205` keeps a finished
  raffle in the store, but `tests/test_handlers.py:38` and `:67` expect it to be
  deleted. `RaffleStore.Finish` keeps it.
- **Negated texts take the fast path.** `tests/test_gigachat_client.py:53` and `:55`
  expect `(False, None)` for texts that contain both keyword families. The fast path
  at `src/gigachat_client.py:65-68` answers `True` for them;
  `ParkingClassifier.NegatedPhraseAnnounced` shows this for "Место 13 сегодня не
  свободно".

Some behaviour of the code is modelled as written, although it is not a guarantee
of the store:

- Re-inserting an id already present overwrites the entry. Its old timers are not
  cancelled, and its winner is not released (`InsertConsistent`, `Insert`).
- A second `finish_raffle` on a retained entry draws again and overwrites `winner_id`.
- Evicting a raffle releases its winner even if that user also won another raffle.
- A user may join several raffles before any of them finishes.

## Model

| member | source | states |
|---|---|---|
| Decimal.IntToStringReadsBack | src/handlers.py:39 | reading back the decimal text of any integer, negative ones included, gives that integer |
| Decimal.IntToStringInjective | src/handlers.py:39 | two integers with the same decimal text are equal |
| Decimal.NatToStringValue | src/handlers.py:218 | the digits printed for a natural number have that number as their value |
| Text.SplitOnce | src/handlers.py:79 | `split("_", 1)` finds no split exactly when the separator is absent; otherwise the text is front + separator + back, and the front has no separator |
| Text.SplitOnceJoined | src/handlers.py:79 | splitting `a + "_" + b` once gives back `a` and `b` whenever `a` has no `_`, so `b` may contain further `_` |
| Text.Lower | src/gigachat_client.py:83 | `lower()` keeps the length and keeps whitespace exactly where it was, so it commutes with `strip()` |
| Text.StripKeepsWords | src/gigachat_client.py:83 | `strip()` neither creates nor destroys an occurrence of a non-empty word without whitespace |
| Text.LowerStripKeepsWords | src/gigachat_client.py:83-86 | a word without whitespace occurs in `reply.strip().lower()` exactly when it occurs in `reply.lower()` |
| Decimal.NatToString | src/handlers.py:214-220 | `str()` of the non-negative minutes and seconds: a non-empty string of digits; see `NatToStringValue` for its value |
| Decimal.IntToString | src/handlers.py:39 | `str(n)`: non-empty, digits after an optional leading `-`; see `IntToStringReadsBack` for its meaning |
| RaffleView.RaffleId | src/handlers.py:39 | the raffle id `f"{chat_id}_{message_id}"`; see `RaffleIdReadsBack` and `RaffleIdInjective` |
| RaffleView.CallbackData | src/handlers.py:236 | the join button's data `"want_" + raffle_id`; see `WantedRaffleIff` |
| RaffleView.WantedRaffle | src/handlers.py:78-79 | the raffle named by callback data, none without the "want_" prefix; see `WantedRaffleIff` |
| RaffleView.FormatTimeRemaining | src/handlers.py:209-220 | the countdown text; see `TimeRemainingReadsBack`, `ZeroReadsBack`, `SecondsReadBack` and `MinutesReadBack` |
| RaffleView.ButtonText | src/handlers.py:232-235 | the join button's text; see `ButtonCountReadsBack` |
| RaffleView.FormatRaffleMessage | src/handlers.py:223-226 | the announcement text; see `RaffleMessageReadsBack` |
| RaffleView.Truncate | src/handlers.py:248 | `int()` on a float truncates toward zero: the result has the sign of the input and lies within one of it, never farther from zero |
| RaffleView.Remaining | src/handlers.py:248 | the clamped countdown is never negative, and positive exactly when the truncated remainder is; see `RemainingBounds` and `RemainingPositiveIff` |
| RaffleView.RaffleIdReadsBack | src/handlers.py:39 | the raffle id `chat_message` can be read back into the chat id and the message id, negative chat ids included |
| RaffleView.RaffleIdInjective | src/handlers.py:39 | different (chat, message) pairs get different raffle ids |
| RaffleView.WantedRaffleIff | src/handlers.py:78-79 | a callback string selects raffle `id` exactly when it is the button's data `"want_" + id` (line 236), so ids containing `_` survive |
| RaffleView.TimeRemainingReadsBack | src/handlers.py:209-220 | the countdown text reads back as the number of seconds, with zero for any non-positive input |
| RaffleView.ZeroReadsBack | src/handlers.py:211-212 | `"0с"` reads back as zero seconds |
| RaffleView.SecondsReadBack | src/handlers.py:219-220 | below a minute, the text `"{s}с"` reads back as `s` |
| RaffleView.MinutesReadBack | src/handlers.py:214-218 | from a minute on, `"{m}м {s}с"` with `s = seconds % 60` below 60 reads back as the total |
| RaffleView.ButtonCountReadsBack | src/handlers.py:232-235 | the button text shows the participant count when it is positive and no count otherwise, and the count can be read back |
| RaffleView.RaffleMessageReadsBack | src/handlers.py:223-226 | place number, countdown and participant count can all be read back from the announcement text |
| RaffleView.RemainingBounds | src/handlers.py:247-248 | for a non-negative elapsed time, `max(0, int(T - elapsed))` lies in [0, T], and it is T at time zero |
| RaffleView.RemainingPositiveIff | src/handlers.py:248-268 | a countdown refresh is rescheduled exactly when at least one full second of the timer remains |
| ParkingClassifier.DigitRuns | src/gigachat_client.py:34 | every element of `re.findall(r'\d+', text)` is a non-empty string of digits |
| ParkingClassifier.NoRunsIffNoDigit | src/gigachat_client.py:34-38 | `findall` finds nothing exactly when the text has no digit |
| ParkingClassifier.FirstRunIsFound | src/gigachat_client.py:34 | the first element found is the leftmost maximal run of digits |
| ParkingClassifier.MentionsAny | src/gigachat_client.py:61-62 | `any(w in text for w in words)` as an exact substring test; see `KeywordFastPath`, `FreedImpliesFree` and `CapitalsNotRecognised` |
| ParkingClassifier.Affirmative | src/gigachat_client.py:83-86 | the reply, stripped and lower-cased, contains "да" or "yes"; see `OracleDecides` |
| ParkingClassifier.CheckParkingMessage | src/gigachat_client.py:34-94 | the flag is true exactly when a place is returned, and a returned place is the value of the text's first digit run |
| ParkingClassifier.NoNumberMeansNo | src/gigachat_client.py:36-38 | a text without digits gives `(False, None)`, whatever the language model would answer |
| ParkingClassifier.KeywordFastPath | src/gigachat_client.py:48-68 | a text with a parking word and a free word gives `(True, first number)`, whatever the language model would answer |
| ParkingClassifier.OracleDecides | src/gigachat_client.py:70-94 | otherwise a failed call gives `(False, None)`, and an answer gives `(True, first number)` exactly when its lower-cased text contains "да" or "yes" |
| ParkingClassifier.FreedImpliesFree | src/gigachat_client.py:54-59 | every text containing "освобод" contains "свобод", so the last free word never changes the result |
| ParkingClassifier.PlaceFiveAnnounced | src/gigachat_client.py:65-68 | "Место 5 свободно" is announced as place 5 without asking the model |
| ParkingClassifier.NegatedPhraseAnnounced | src/gigachat_client.py:65-68 | "Место 13 сегодня не свободно" is announced as place 13: the fast path has no negation handling |
| ParkingClassifier.CapitalsNotRecognised | src/gigachat_client.py:48-62 | the keyword test does not fold case: "ПАРКОВКА 7 свободна" misses the fast path, and a failed model call makes it `(False, None)` |
| Security.IsAllowedChat | src/security.py:8-21 | the chat id is on the allow-list; its use is stated by `CheckChatAccess` |
| Security.IsPrivateMessage | src/security.py:24-34 | the chat type is `"private"`; its use is stated by `CheckChatAccess` |
| Security.IsOwner | src/security.py:37-47 | the user id is the owner's; see `CheckOwnerPermission` |
| Security.CheckChatAccess | src/security.py:50-69 | access is granted exactly to non-private chats on the allow-list; the reason is empty exactly when access is granted; a private chat gets the private-chat reason whatever its id, and a non-private chat off the list gets the not-allowed reason |
| Security.CheckOwnerPermission | src/security.py:72-85 | permission is granted exactly to the owner's user id, and agrees with `is_owner` |
| Raffles.NewRaffle | src/handlers.py:51-72 | a new raffle has the given place, message id and chat id, no participants, no winner, `timestamp == start_time == now` and `date == today`; its finish timer holds serial `serial` with delay `RAFFLE_TIMER_SECONDS` and its refresh timer serial `serial + 1` with delay 10; it is well formed |
| Raffles.Without | src/handlers.py:138 | deleting a key from the dict order removes exactly that key and keeps the others distinct |
| Raffles.KeepOnly | src/handlers.py:150-164 | the dict order after deletions holds exactly the surviving keys, still distinct |
| Raffles.DiscardConsistent | src/handlers.py:125-138 | deleting a raffle and cancelling its timers keeps the store invariant |
| Raffles.InsertConsistent | src/handlers.py:51-72 | recording a well-formed raffle with freshly issued timers keeps the store invariant, also when the id was present |
| Raffles.RaffleStore.constructor | src/handlers.py:15-17 | the store starts empty, with no winners and no cancelled timers, and satisfies the invariant |
| Raffles.RaffleStore.SizeIsOrderLength | src/handlers.py:34 | `len(active_raffles)` equals the length of the key order |
| Raffles.RaffleStore.StartTimer | src/handlers.py:269-270 | starting a timer issues a handle with a fresh serial and the given delay, and changes nothing else |
| Raffles.RaffleStore.HandleCallback | src/handlers.py:76-114 | data without "want_" does nothing; an unknown raffle is "ended"; a participant is "already joined", checked before a current winner is "already won"; all three leave the store unchanged; otherwise exactly this raffle gets the user appended, its count is one more, and winners, order and timers are untouched |
| Raffles.RaffleStore.OldestId | src/handlers.py:122 | none exactly on an empty store; otherwise a present raffle whose timestamp is minimal, and the first such one in insertion order |
| Raffles.RaffleStore.Discard | src/handlers.py:125-138 | exactly that raffle is removed from the table and the order; its winner, if truthy, is released; its timers are cancelled |
| Raffles.RaffleStore.RemoveOldest | src/handlers.py:116-138 | an empty store is unchanged; otherwise exactly one raffle is removed, one with minimal timestamp and the first such in insertion order; its winner is released, its timers are cancelled, and every other raffle stays |
| Raffles.RaffleStore.StaleIds | src/handlers.py:143-148 | the ids collected are distinct and are exactly the active raffles whose date is not today |
| Raffles.RaffleStore.CleanupOldRaffles | src/handlers.py:141-164 | afterwards the table is exactly the raffles created today, so every remaining raffle has today's date and every such raffle stays; the winners of the removed raffles are released; their timers are cancelled; the order keeps exactly the survivors |
| Raffles.RaffleStore.Finish | src/handlers.py:166-206 | an absent raffle, or one without participants, keeps its winner and the winner set; otherwise the drawn winner is a participant, is recorded as the winner, and is added to the winners; the entry stays; the refresh timer is cancelled unless the winner announcement raised |
| Raffles.RaffleStore.Refresh | src/handlers.py:241-271 | an absent raffle gives no view; otherwise the view is the announcement with the clamped remaining time and the participant count, and a new refresh timer replaces the old one exactly when time remains |
| Raffles.RaffleStore.MakeRoom | src/handlers.py:29-36 | the stale raffles are purged; then the oldest raffle is evicted exactly when the store is still at or over capacity; afterwards the store is below `MAX_ACTIVE_RAFFLES` if it was within it and the bound is at least 1 |
| Raffles.RaffleStore.Insert | src/handlers.py:51-72 | the raffle is recorded under its id as a new raffle with two fresh timers, its id is added to the order, and winners and cancelled timers are unchanged |
| Raffles.RaffleStore.HandleTextMessage | src/handlers.py:29-72 | a verdict without a non-zero place changes nothing; otherwise the store is purged and evicted as in `MakeRoom`, the announcement for `chat_message` is posted, and, unless posting failed, a new raffle is recorded; the store never grows past `MAX_ACTIVE_RAFFLES` when that bound is at least 1 |

## Left out

- Timers are handles only: a timer firing, the threads it runs on and the races
  between a firing timer and the handlers are not modelled (`src/handlers.py:65-72`,
  `269-271`). There are no locks in the code either. `finish_raffle` and
  `update_raffle_message` are modelled as the methods `Finish` and `Refresh`, which a
  firing timer would call.
- In the code the entry is first stored with both timers `None` and then gains them
  one at a time (`src/handlers.py:56-72`). The model records it with both timers in
  one step, because nothing can observe the entry in between without threads.
- Telegram I/O (`reply_to`, `send_message`, `edit_message_text`,
  `edit_message_reply_markup`, `get_chat_member`, `answer_callback_query`) is not
  modelled. Where a call is guarded by `try`, the operation simply continues. Where it
  is not guarded, its success is a parameter (`reply`, `sent`).
- The answer texts of `answer_callback_query` are not modelled. `JoinOutcome` says
  which of the answers is given.
- The winner announcement text and every log message are left out.
- `update_raffle_button` (`src/handlers.py:274-289`) only redraws the button. Its
  text is `ButtonText` of the new count, which `JoinOutcome.Joined` carries.
- `random.choice`'s distribution is left out. The chosen index is an input.
- Floating-point time is modelled as real numbers, so float rounding is not
  modelled.
- The two calls to `date.today()` in one creation (`src/handlers.py:41` and inside
  `cleanup_old_raffles`) are one parameter `today`, so the race at midnight is not
  modelled.
- The GigaChat network call (`src/gigachat_client.py:13-16`, `75-77`) is the oracle
  `ask`.
- The bytes branch of the reply decoding (`src/gigachat_client.py:80-81`) is treated
  like the string branch.
- The UTF-8 encode fallback (`src/gigachat_client.py:41-45`) and the unused regexes
  (`18-19`) are left out.
- The keyword test is modelled on characters, not on UTF-8 bytes. Because UTF-8 is
  self-synchronising, a byte-string occurrence of an encoded word is an occurrence of
  the word.
- ParkingClassifier.DigitRuns: only the ASCII digits 0-9 count as digits. Python's
  `\d` and `int()` also accept other Unicode decimal digits.
- ParkingClassifier.CheckParkingMessage: it does not model the `ValueError` that
  Python raises when converting a digit run longer than 4300 digits. On the fast
  path that error would propagate; after a model answer it would become
  `(False, None)`.
- Text.Lower: it lower-cases only the Latin capitals A-Z and the Cyrillic capitals
  U+0400-U+042F. Other characters are kept as they are.
- Security: `src/bot.py` never calls these checks. `OWNER_USER_ID` and
  `ALLOWED_CHAT_IDS` are imported at `src/security.py:3` but not defined in
  `src/config.py`, so they are parameters here.
- The warning logs in `src/security.py` are left out.
- Raffles.RaffleStore.MakeRoom: it states that the evicted raffle has the smallest
  timestamp, but not which of several equal ones is chosen.
  `Raffles.RaffleStore.RemoveOldest` states that it is the first in insertion order.
- Raffles.RaffleStore.HandleTextMessage: like `MakeRoom`, it does not state the
  tie-break among equal timestamps.
- `src/config.py` (environment loading) and `src/bot.py` (polling, handler
  registration, `/status`) are not part of this model.
