# Counting enforcer bot: the message rules, in Dafny

The bot moderates one Discord channel that plays a counting game. Players post
consecutive numbers one message at a time, and nobody may post twice in a row.
For every message the bot decides three things. Is the message in scope: not
its own, and from the monitored guild and channel? Is it well-formed:
non-empty after `str.strip()` and nothing but ASCII digits? Is it the right
next number from someone other than the last author? It then does one of four
things: nothing, delete the message, seed the game, or advance the game.

The project models that decision and the two state slots it updates:

- `text.dfy` (module `Text`) covers Python's `str.strip()`, using CPython's
  `str.isspace()` set of code points. It also covers the `^[0-9]+$` pattern as
  `re.match` applies it, `int()` on a digit string (`ParseDigits`), and the
  decimal rendering `str(n)` (`ShowNat`) that `int()` inverts.
- `rules.dfy` (module `Rules`) holds the state and message values and the
  outcome type. `Action` is `Ignore`, `Delete` or `Keep`. `Classify` is the
  whole decision, following the early returns of `on_message` in order. `Run`
  processes messages one at a time, in delivery order. The lemmas state the
  game's rules.
- `session.dfy` (module `Session`) holds the bot object. `CountingSession` has
  the fields `count` and `prevAuthor`, which `HandleMessage` updates in place
  through the same chain of early returns. Its postcondition ties the returned
  action and the new fields to `Classify` applied to the old fields.

Three consequences of the code are easy to miss:

- `"0"` is a valid message. It matches `^[0-9]+$` (bot.py:73), so it can
  seed the game (`ScenarioZeroSeeds`), although the comment at bot.py:81
  calls the parsed number positive. No zero check exists in the code.
- The strip at bot.py:60 runs before the digit check at bot.py:73, so `"6 "`
  and `" 06\n"` are read as 6 (`ScenarioPaddedLeadingZero`).
- Empty or non-digit text is deleted only when `self.count is not None`
  (bot.py:64, 74); before the game starts it is left alone (`Ignore`).

## Model

| member | source | states |
|---|---|---|
| `Text.IsSpace` | bot.py:60 | the whitespace set `str.strip()` removes: CPython's `str.isspace()` code points |
| `Text.TrimStart` | bot.py:60 | the leading-whitespace removal of `strip()`: the result is a suffix of the input, everything removed is whitespace, and the result is empty or starts with a non-whitespace character |
| `Text.TrimEnd` | bot.py:60 | the trailing-whitespace removal of `strip()`: the result is a prefix of the input, everything removed is whitespace, and the result is empty or ends with a non-whitespace character |
| `Text.Trim` | bot.py:60 | `message.content.strip()` is no longer than the content and is empty or has non-whitespace at both ends |
| `Text.TrimMargins` | bot.py:60 | `strip()` keeps a slice of the content and everything it removes before and after that slice is whitespace |
| `Text.TrimUnique` | bot.py:60 | `strip()` is fully determined: any whitespace around a text whose ends are not whitespace is removed, and that text is returned |
| `Text.TrimKeeps` | bot.py:60 | content with no whitespace at either end is left unchanged by `strip()` |
| `Text.TrimIdempotent` | bot.py:60 | stripping stripped content changes nothing |
| `Text.MatchesDigitPattern` | bot.py:73 | `re.match(r'^[0-9]+$', content)`: one or more ASCII digits, optionally followed by one final newline that Python's `$` lets through |
| `Text.PatternAdmitsFinalNewline` | bot.py:73 | on unstripped text the pattern accepts `"12\n"`, which is not all digits |
| `Text.PatternOnTrimmed` | bot.py:73 | on stripped content, `re.match(r'^[0-9]+$', ...)` succeeds exactly for non-empty all-ASCII-digit text; the allowance of `$` for a final newline never applies |
| `Text.ParseDigits` | bot.py:82 | `int(content)` on a k-digit string is below 10^k, and a single digit reads as its own value |
| `Text.ShowNat` | bot.py:82 | the decimal rendering of a natural number is a non-empty ASCII digit string with no superfluous leading zero, one digit long exactly below 10 |
| `Text.ParseShow` | bot.py:82 | `int(str(n)) == n` for every natural `n` |
| `Text.CanonicalLowerBound` | bot.py:82 | a digit string not starting with `0` reads as at least 10^(k-1) |
| `Text.ShowParse` | bot.py:73-82 | `str(int(s)) == s` for every digit string without superfluous leading zeros |
| `Text.LeadingZero` | bot.py:73-82 | a digit string with a leading `0` is still all ASCII digits, and the `0` does not change the parsed value |
| `Rules.InScope` | bot.py:48-57 | the scope guard: not the bot's own message, a guild that is the monitored one, and the monitored channel |
| `Rules.Classify` | bot.py:38-112 | one message: the state changes only when it is kept; only in-scope messages are acted on; nothing is deleted before the game has a count; a kept message records its author and advances an existing count by exactly one; the pairing of count and author is preserved |
| `Rules.Run` | bot.py:38-112 | processing messages one at a time yields one action per message |
| `Rules.OutOfScopeIgnored` | bot.py:48-57 | the bot's own messages, messages with no guild or another guild, and messages from another channel are ignored and leave the state unchanged, whatever their text |
| `Rules.MalformedRejected` | bot.py:59-79 | in-scope text that is empty after stripping or not all ASCII digits never changes state, and is deleted if and only if the count is set |
| `Rules.SeedAccepted` | bot.py:84-90 | with no count yet, the first all-digit message is kept and sets count to its value and the author to its author, whatever the value and the author |
| `Rules.AcceptIffNextByOther` | bot.py:92-111 | once counting, an all-digit message is kept if and only if its value is count + 1 and its author differs from the last author; otherwise it is deleted; a kept one sets count + 1 and its author |
| `Rules.KeptIffNumeralOfNext` | bot.py:59-111 | once counting, any in-scope message is kept exactly when its stripped text is all ASCII digits reading count + 1 and its author is not the last author |
| `Rules.NextNumeralAccepted` | bot.py:59-111 | once counting, the decimal rendering of count + 1, with any whitespace around it and posted by a different author, is kept and advances the game |
| `Rules.ClassifyNumeral` | bot.py:82-111 | the full decision for an in-scope message whose stripped text is digits reading n: seed when uninitialized, advance on count + 1 by another author, delete otherwise |
| `Rules.RunCoherent` | bot.py:84-111 | count and previous author stay both unset or both set over any sequence of messages, since they are only assigned together |
| `Rules.RunCountsKeeps` | bot.py:92-111 | after initialization the count only grows, by exactly one per kept message |
| `Rules.RunWithoutKeepUnchanged` | bot.py:41-47 | "state updates only on success": a sequence of messages none of which is kept leaves the state as it was |
| `Rules.RunOutOfScope` | bot.py:48-57 | any number of out-of-scope messages are all ignored and never change state |
| `Rules.ScenarioThreeTurns` | bot.py:84-111 | "1" by A, "2" by B, "3" by A from a fresh start are all kept and leave count 3 with A as the last author |
| `Rules.ScenarioRejectionDoesNotAdvance` | bot.py:92-111 | at count 5, "7" is deleted and a following "6" is still judged against 5 and kept |
| `Rules.ScenarioAuthorLock` | bot.py:100-107 | at count 5 by A, "6" by A is deleted |
| `Rules.ScenarioZeroSeeds` | bot.py:71-90 | "0" passes the digit check and seeds the game with count 0 |
| `Rules.ScenarioPaddedLeadingZero` | bot.py:59-111 | " 06\n" after 5 is stripped, passes the digit check, reads as 6 and is kept |
| `Rules.ScenarioFormatRejected` | bot.py:71-79 | "+6", "6.0", "6 6" and the full-width digit six fail the digit check: deleted at count 5, ignored before the game starts |
| `Session.CountingSession.Valid` | bot.py:29-30 | the object invariant: `count` and `previous_author_id` are both unset or both set |
| `Session.CountingSession.constructor` | bot.py:25-30 | a new bot records its guild and channel and starts with no count and no previous author |
| `Session.CountingSession.HandleMessage` | bot.py:38-112 | the returned action and the new `count`/`prevAuthor` fields are exactly what `Classify` gives for the old fields; fields change only when the message is kept; the pairing of the two fields is preserved |

## Left out

- `main` (bot.py:115-151) is not modelled. It loads environment variables, validates them, exits the process and handles login errors; all of that is configuration I/O.
- `on_ready` (bot.py:32-36) and every `print` are not modelled; they are logging only.
- The discord.py client is not modelled: intents, the `commands.Bot` base class and asynchronous event dispatch (bot.py:19-22).
- `await message.delete()` and its swallowed `Forbidden`/`NotFound` errors become the returned `Delete` action. The deletion never affects state, so a failed deletion needs no model.
- Concurrency and event ordering come from the platform. The model processes messages one at a time, in delivery order (`Run`).
- `message.author == self.user` is modelled as the flag `fromSelf`.
- Author ids are modelled as the strings `str(message.author.id)` that the bot stores. Guild and channel ids are integers compared by equality.
- Whitespace follows CPython's fixed `str.isspace()` code-point list. Later Unicode database versions are not tracked.
- `Rules.Classify` and `Text.ParseDigits` do not model `int()`'s limit on the number of digits it converts (4300 by default in CPython 3.11 and later, and in the 3.10.7, 3.9.14 and 3.8.14 security releases). Beyond it `int()` raises `ValueError`, `on_message` stops, and nothing is deleted or changed, while the model reads any length. Discord caps message content at 4000 characters, so no delivered message reaches that limit.
- `int()` is modelled only on the inputs that reach it: non-empty strings of ASCII digits. Its other accepted forms (signs, underscores, surrounding whitespace) cannot occur after the strip and the digit check.
