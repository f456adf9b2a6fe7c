# BlakeBot core, modelled in Dafny

This project models four pieces of sequential logic from BlakeBot, a Discord bot written in Java.

1. **The blacklist.** Restriction sets are stored at ID paths: guild, then channel, then user or role. It covers:
   - the `Restriction` value: equality and hash code;
   - text matching for CONTENT and WORD restrictions;
   - reading and writing a restriction as XML events.
2. **The uptime tracker.** It is a connection state machine driven by disconnected, connected and resumed events. It records uptimes and downtimes in a `TimeData` list kept sorted, together with its running total. Minimum, maximum, mean and median are read off that list.
3. **The timeout commands.** These cover:
   - validation of the time argument `(\d+)([smh])` and its conversion to milliseconds;
   - the reply, built by the timeout, untimeout and check commands with one line per argument.
4. **The integer translator.** Stored number data is read back clamped into the 32-bit `int` range.

Files:

- `java_lang.dfy` (module `JavaLang`) holds the Java semantics the models rely on:
  - the `long` and `int` ranges;
  - two's-complement wrap-around (`Wrap64`, `Wrap32`);
  - division truncating toward zero (`Quot`);
  - `Option` and `Result`. A `Result` stands for the exceptions and error returns.
- `restriction.dfy` (`Restrictions`) holds the restriction value, `equals`/`hashCode`, `makePattern` and `test`.
- `restriction_xml.dfy` (`RestrictionXml`) holds `Restriction.read` and `Restriction.write` over a list of StAX events.
- `blacklist.dfy` (`Blacklist`) holds the `Blacklist` class. Its field `tree` maps each path to the set stored exactly there.
- `uptime_tracker.dfy` (`UptimeTracker`) holds the `TimeData` and `UptimeTracker` classes.
- `timeout_command.dfy` (`TimeoutCommand`) holds time parsing, reply building and the three command methods.
- `integer_translator.dfy` (`IntegerTranslator`) holds `toData` and `fromData`.

Modelling choices:

- **Clock.** The current time is a parameter (`now`) of every tracker operation that reads the clock.
- **Timeout controller.** Its answers are oracle functions indexed by the argument's position. The calls made to it are returned as a list of `ControllerCall` values.
- **REGEX matching.** A REGEX restriction matches through an oracle `regexFind(regex, message)`.
- **Case-insensitivity.** Case-insensitive matching folds ASCII letters only.
- **Whitespace.** It is Java's `\s` set: space, tab, line feed, vertical tab, form feed and carriage return.
- **What the code does, stated plainly.** Three behaviours worth spelling out:
  - **Removing restrictions.** `remove` empties a set but keeps its path, and it never creates a path. See `Blacklist.RemoveUndoesAdd`.
  - **WORD restrictions.** The pattern `(?:\A|\s)word(?:\z|\s)` needs the message start or whitespace right before the word and the message end or whitespace right after it. So a WORD restriction "cat" does not match "I have a CAT." (with the full stop). See `Restrictions.WordEndExamples`.
  - **Applicable restrictions.** `getAllRestrictions` reads a fixed list of six path shapes.
- **Where the comment and the code disagree, the model follows the code.** The comment on the WORD type speaks of "a blank space". The pattern uses `\s`, so a tab, line feed, vertical tab, form feed or carriage return also delimits a word. See `Restrictions.TestWord`.

## Model

| member | source | states |
|---|---|---|
| JavaLang.Wrap64 | blakebot-module-status/src/main/java/com/github/thiagotgm/blakebot/module/status/UptimeTracker.java:472 | `long` arithmetic: a result inside the `long` range is the mathematical value |
| JavaLang.Wrap64Congruent | blakebot-module-status/src/main/java/com/github/thiagotgm/blakebot/module/status/UptimeTracker.java:472 | every `long` result differs from the mathematical value by a multiple of 2^64: it wraps around |
| JavaLang.Wrap32Congruent | blakebot-module-admin/src/main/java/com/github/thiagotgm/blakebot/module/admin/Blacklist.java:680-684 | every `int` result differs from the mathematical value by a multiple of 2^32 |
| JavaLang.WrapAdd | blakebot-module-status/src/main/java/com/github/thiagotgm/blakebot/module/status/UptimeTracker.java:472 | wrapping after each addition to `total` gives the wrapped mathematical sum |
| JavaLang.Quot | blakebot-module-status/src/main/java/com/github/thiagotgm/blakebot/module/status/UptimeTracker.java:520-527 | Java `/`: the remainder has the dividend's sign and is smaller than the divisor |
| Restrictions.StringHash | blakebot-module-admin/src/main/java/com/github/thiagotgm/blakebot/module/admin/Blacklist.java:680-684 | the hash of the text is the polynomial s[0]*31^(n-1) + ... + s[n-1], wrapped into the `int` range |
| Restrictions.HashCode | blakebot-module-admin/src/main/java/com/github/thiagotgm/blakebot/module/admin/Blacklist.java:680-684 | a restriction's hash is the text's string hash; the type takes no part |
| Restrictions.HashExample | blakebot-module-admin/src/main/java/com/github/thiagotgm/blakebot/module/admin/Blacklist.java:680-684 | the hash of "ab" is 3105 |
| Restrictions.Equals | blakebot-module-admin/src/main/java/com/github/thiagotgm/blakebot/module/admin/Blacklist.java:662-671 | two restrictions are equal exactly when text and type are equal |
| Restrictions.HashConsistentWithEquals | blakebot-module-admin/src/main/java/com/github/thiagotgm/blakebot/module/admin/Blacklist.java:680-684 | equal restrictions, and any two with the same text, have the same hash code |
| Restrictions.SameTextOtherKindDistinct | blakebot-module-admin/src/main/java/com/github/thiagotgm/blakebot/module/admin/Blacklist.java:662-684 | same text with another type: not equal, same hash, two distinct set members |
| Restrictions.MakePattern | blakebot-module-admin/src/main/java/com/github/thiagotgm/blakebot/module/admin/Blacklist.java:530-556 | CONTENT compiles to the quoted text, WORD to the quoted text between the word boundaries, REGEX to the text itself, each keeping the text |
| Restrictions.Test | blakebot-module-admin/src/main/java/com/github/thiagotgm/blakebot/module/admin/Blacklist.java:587-591 | REGEX is the engine's answer; CONTENT and WORD hold exactly when the text occurs at some position up to case, WORD also needing whitespace or a message end on both sides |
| Restrictions.TestContent | blakebot-module-admin/src/main/java/com/github/thiagotgm/blakebot/module/admin/Blacklist.java:536-539 | a CONTENT restriction matches exactly when its text occurs in the message, ignoring case |
| Restrictions.TestWord | blakebot-module-admin/src/main/java/com/github/thiagotgm/blakebot/module/admin/Blacklist.java:541-544 | a WORD restriction matches exactly when its text occurs, ignoring case, with the message start or whitespace before it and the message end or whitespace after it |
| Restrictions.TestRegex | blakebot-module-admin/src/main/java/com/github/thiagotgm/blakebot/module/admin/Blacklist.java:546-548 | a REGEX restriction matches exactly when the regex engine finds its text in the message |
| Restrictions.WordImpliesContent | blakebot-module-admin/src/main/java/com/github/thiagotgm/blakebot/module/admin/Blacklist.java:541-544 | a message a WORD restriction matches is also matched by the CONTENT restriction with the same text |
| Restrictions.ContentSurvivesExtension | blakebot-module-admin/src/main/java/com/github/thiagotgm/blakebot/module/admin/Blacklist.java:587-591 | `find` searches anywhere: a CONTENT match stays a match when text is added on either side |
| Restrictions.TestIgnoresCase | blakebot-module-admin/src/main/java/com/github/thiagotgm/blakebot/module/admin/Blacklist.java:485 | CONTENT and WORD tests give the same answer on the case-folded message |
| Restrictions.InsideWordExamples | blakebot-module-admin/src/main/java/com/github/thiagotgm/blakebot/module/admin/Blacklist.java:466-477 | "cat" as CONTENT matches "concatenate", and as WORD it does not |
| Restrictions.WordEndExamples | blakebot-module-admin/src/main/java/com/github/thiagotgm/blakebot/module/admin/Blacklist.java:541-544 | "cat" as WORD matches "I have a CAT" but not "I have a CAT." |
| RestrictionXml.ParseType | blakebot-module-admin/src/main/java/com/github/thiagotgm/blakebot/module/admin/Blacklist.java:606-610 | the type attribute is accepted exactly when its upper-cased form names a type, and that type is returned |
| RestrictionXml.ParseTypeAttribute | blakebot-module-admin/src/main/java/com/github/thiagotgm/blakebot/module/admin/Blacklist.java:647 | the lower-cased type name that `write` emits parses back to the same type |
| RestrictionXml.AttributeValue | blakebot-module-admin/src/main/java/com/github/thiagotgm/blakebot/module/admin/Blacklist.java:602 | no value exactly when no attribute has the name; otherwise the value of the first such attribute |
| RestrictionXml.Write | blakebot-module-admin/src/main/java/com/github/thiagotgm/blakebot/module/admin/Blacklist.java:644-651 | a `restriction` start tag with the lower-cased type name, the text as character data (none when empty), the end tag |
| RestrictionXml.Read | blakebot-module-admin/src/main/java/com/github/thiagotgm/blakebot/module/admin/Blacklist.java:594-641 | the loop's result equals the step-by-step description and the loop-free one: the first tag after the start tag decides, with the last character data before it |
| RestrictionXml.ReadMatchesReference | blakebot-module-admin/src/main/java/com/github/thiagotgm/blakebot/module/admin/Blacklist.java:612-639 | the event-by-event reading equals the description by first tag and last text |
| RestrictionXml.WriteThenRead | blakebot-module-admin/src/main/java/com/github/thiagotgm/blakebot/module/admin/Blacklist.java:644-651 | reading what `write` emitted, inside any surrounding events, gives the same restriction back and stops at its end tag; empty text fails as missing text |
| RestrictionXml.LastCharactersWin | blakebot-module-admin/src/main/java/com/github/thiagotgm/blakebot/module/admin/Blacklist.java:620-622 | with several character events the last one becomes the text |
| RestrictionXml.TypeAttributeExamples | blakebot-module-admin/src/main/java/com/github/thiagotgm/blakebot/module/admin/Blacklist.java:602-610 | "WoRd" is accepted as WORD, "bogus" is an invalid type, a missing type attribute is reported |
| RestrictionXml.BodyErrors | blakebot-module-admin/src/main/java/com/github/thiagotgm/blakebot/module/admin/Blacklist.java:612-639 | a nested start tag, a foreign end tag, no text, the end of the stream and a wrong first event each give their own error |
| Blacklist.ScopePath | blakebot-module-admin/src/main/java/com/github/thiagotgm/blakebot/module/admin/Blacklist.java:124-192 | the path each scope overload uses: one ID for a guild, two or three otherwise |
| Blacklist.Blacklist.constructor | blakebot-module-admin/src/main/java/com/github/thiagotgm/blakebot/module/admin/Blacklist.java:70-81 | the blacklist starts on the tree the database backend loaded |
| Blacklist.Blacklist.Get | blakebot-module-admin/src/main/java/com/github/thiagotgm/blakebot/module/admin/Blacklist.java:107-116 | the set stored exactly at the path, or the empty set |
| Blacklist.Blacklist.GetRestrictions | blakebot-module-admin/src/main/java/com/github/thiagotgm/blakebot/module/admin/Blacklist.java:124-192 | the set stored exactly at the scope's path |
| Blacklist.Blacklist.GetAllRestrictions | blakebot-module-admin/src/main/java/com/github/thiagotgm/blakebot/module/admin/Blacklist.java:202-223 | the union of the sets at [G,C,U], [G,C], [G,U], [G] and, for each role R, [G,C,R] and [G,R], and nothing else |
| Blacklist.Blacklist.Add | blakebot-module-admin/src/main/java/com/github/thiagotgm/blakebot/module/admin/Blacklist.java:236-246 | reports true exactly when the restriction was absent; the new tree has it at the path, the set created if needed |
| Blacklist.Blacklist.Remove | blakebot-module-admin/src/main/java/com/github/thiagotgm/blakebot/module/admin/Blacklist.java:346-351 | reports true exactly when the restriction was there; the new tree lacks it at the path and has no new path |
| Blacklist.Blacklist.AddRestriction | blakebot-module-admin/src/main/java/com/github/thiagotgm/blakebot/module/admin/Blacklist.java:256-334 | `add` at the scope's path |
| Blacklist.Blacklist.RemoveRestriction | blakebot-module-admin/src/main/java/com/github/thiagotgm/blakebot/module/admin/Blacklist.java:361-439 | `remove` at the scope's path |
| Blacklist.CollectedAdd | blakebot-module-admin/src/main/java/com/github/thiagotgm/blakebot/module/admin/Blacklist.java:209-212 | `addAll` of one more path's set adds exactly that set to what is collected |
| Blacklist.AppliesIff | blakebot-module-admin/src/main/java/com/github/thiagotgm/blakebot/module/admin/Blacklist.java:202-223 | a restriction applies exactly when it is stored at one of the six path shapes for the user, the channel or one of the roles |
| Blacklist.InsertedEffect | blakebot-module-admin/src/main/java/com/github/thiagotgm/blakebot/module/admin/Blacklist.java:236-246 | after `add` the path exists and holds the old set plus the restriction; every other path is unchanged |
| Blacklist.RemovedEffect | blakebot-module-admin/src/main/java/com/github/thiagotgm/blakebot/module/admin/Blacklist.java:346-351 | after `remove` the path lacks the restriction, the set of paths is the same, every other path is unchanged |
| Blacklist.AddRemoveTwice | blakebot-module-admin/src/main/java/com/github/thiagotgm/blakebot/module/admin/Blacklist.java:236-246 | adding twice finds the restriction present the second time and changes nothing more; so does removing twice |
| Blacklist.RemoveUndoesAdd | blakebot-module-admin/src/main/java/com/github/thiagotgm/blakebot/module/admin/Blacklist.java:346-351 | removing a freshly added restriction restores every lookup; a path the add created stays with an empty set |
| UptimeTracker.InsortAt | blakebot-module-status/src/main/java/com/github/thiagotgm/blakebot/module/status/UptimeTracker.java:462-469 | the scan's stopping point, the first element not smaller than the time, is where the insertion happens |
| UptimeTracker.InsortSorted | blakebot-module-status/src/main/java/com/github/thiagotgm/blakebot/module/status/UptimeTracker.java:462-469 | insertion keeps the list sorted |
| UptimeTracker.InsortElements | blakebot-module-status/src/main/java/com/github/thiagotgm/blakebot/module/status/UptimeTracker.java:462-469 | insertion adds one element, and the multiset grows by exactly the time |
| UptimeTracker.InsortSum | blakebot-module-status/src/main/java/com/github/thiagotgm/blakebot/module/status/UptimeTracker.java:471-472 | insertion adds the time to the sum |
| UptimeTracker.MeanBounds | blakebot-module-status/src/main/java/com/github/thiagotgm/blakebot/module/status/UptimeTracker.java:520-527 | the truncated mean of a sorted list lies between its first and last element |
| UptimeTracker.MidpointBounds | blakebot-module-status/src/main/java/com/github/thiagotgm/blakebot/module/status/UptimeTracker.java:544-545 | the truncated midpoint of two ordered values lies between them |
| UptimeTracker.TimeData.constructor | blakebot-module-status/src/main/java/com/github/thiagotgm/blakebot/module/status/UptimeTracker.java:441-442 | an empty list and a zero total |
| UptimeTracker.TimeData.RecordTime | blakebot-module-status/src/main/java/com/github/thiagotgm/blakebot/module/status/UptimeTracker.java:451-474 | the list becomes the sorted insertion of the time, one longer, the total grows by it in `long` arithmetic, and sortedness and the total invariant are kept |
| UptimeTracker.TimeData.Total | blakebot-module-status/src/main/java/com/github/thiagotgm/blakebot/module/status/UptimeTracker.java:481-485 | the sum of the recorded times in `long` arithmetic |
| UptimeTracker.TimeData.Minimum | blakebot-module-status/src/main/java/com/github/thiagotgm/blakebot/module/status/UptimeTracker.java:492-499 | 0 when empty, otherwise a recorded time no larger than any other |
| UptimeTracker.TimeData.Maximum | blakebot-module-status/src/main/java/com/github/thiagotgm/blakebot/module/status/UptimeTracker.java:506-513 | 0 when empty, otherwise a recorded time no smaller than any other |
| UptimeTracker.TimeData.Mean | blakebot-module-status/src/main/java/com/github/thiagotgm/blakebot/module/status/UptimeTracker.java:520-527 | 0 when empty, otherwise the truncated total over the count; without wrap-around it lies between minimum and maximum |
| UptimeTracker.TimeData.Median | blakebot-module-status/src/main/java/com/github/thiagotgm/blakebot/module/status/UptimeTracker.java:534-548 | 0 when empty, the middle time for an odd count; for an even count the truncated half of the `long` sum of the two middle times, which lies between them (and between minimum and maximum) when that sum does not wrap |
| UptimeTracker.TimeData.Amount | blakebot-module-status/src/main/java/com/github/thiagotgm/blakebot/module/status/UptimeTracker.java:555-559 | the number of recorded times |
| UptimeTracker.UptimeTracker.constructor | blakebot-module-status/src/main/java/com/github/thiagotgm/blakebot/module/status/UptimeTracker.java:68-95 | not connected, the initial disconnect sentinel, empty records |
| UptimeTracker.UptimeTracker.Disconnected | blakebot-module-status/src/main/java/com/github/thiagotgm/blakebot/module/status/UptimeTracker.java:151-171 | the disconnection starts now; a running connection's length is recorded as an uptime and counted as one more disconnection, otherwise nothing is recorded |
| UptimeTracker.UptimeTracker.Connected | blakebot-module-status/src/main/java/com/github/thiagotgm/blakebot/module/status/UptimeTracker.java:179-201 | the connection starts now; the initial sentinel and "not disconnected" record nothing, any other disconnect time records a downtime; the uptimes and the disconnection count are untouched |
| UptimeTracker.UptimeTracker.Resumed | blakebot-module-status/src/main/java/com/github/thiagotgm/blakebot/module/status/UptimeTracker.java:209-228 | like connecting, but every disconnect time other than "none", the initial sentinel included, records a downtime; the uptimes and the disconnection count are untouched |
| UptimeTracker.UptimeTracker.CurrentUptime | blakebot-module-status/src/main/java/com/github/thiagotgm/blakebot/module/status/UptimeTracker.java:237-241 | 0 when not connected; otherwise now minus the connection start in `long` arithmetic, negative when the clock is behind it |
| UptimeTracker.UptimeTracker.CurrentDowntime | blakebot-module-status/src/main/java/com/github/thiagotgm/blakebot/module/status/UptimeTracker.java:316-320 | 0 when not disconnected; otherwise now minus the disconnection start in `long` arithmetic, negative when the clock is behind it |
| UptimeTracker.UptimeTracker.TotalUptime | blakebot-module-status/src/main/java/com/github/thiagotgm/blakebot/module/status/UptimeTracker.java:259-263 | recorded uptimes plus the running one, when nothing wraps |
| UptimeTracker.UptimeTracker.TotalDowntime | blakebot-module-status/src/main/java/com/github/thiagotgm/blakebot/module/status/UptimeTracker.java:338-342 | recorded downtimes plus the running one, when nothing wraps |
| UptimeTracker.UptimeTracker.DisconnectAmount | blakebot-module-status/src/main/java/com/github/thiagotgm/blakebot/module/status/UptimeTracker.java:395-399 | the number of recorded uptimes |
| UptimeTracker.ExampleSession | blakebot-module-status/src/main/java/com/github/thiagotgm/blakebot/module/status/UptimeTracker.java:151-228 | connecting at 1000, disconnecting at 5000 and resuming at 6500 record the uptime 4000 and the downtime 1500, and count one disconnection |
| UptimeTracker.EarlyResume | blakebot-module-status/src/main/java/com/github/thiagotgm/blakebot/module/status/UptimeTracker.java:209-228 | a resume at 1000 before any connection records the downtime 1002 from the initial sentinel |
| UptimeTracker.NotUpAndDown | blakebot-module-status/src/main/java/com/github/thiagotgm/blakebot/module/status/UptimeTracker.java:151-228 | the tracker never has a running uptime and a running downtime at once |
| TimeoutCommand.UnitOf | blakebot-module-admin/src/main/java/com/github/thiagotgm/blakebot/module/admin/TimeoutCommand.java:108-126 | a unit is found exactly for the letters s, m and h |
| TimeoutCommand.MatchTime | blakebot-module-admin/src/main/java/com/github/thiagotgm/blakebot/module/admin/TimeoutCommand.java:89-93 | a match splits the text into its digit group (one or more digits) and a unit letter |
| TimeoutCommand.ParseLong | blakebot-module-admin/src/main/java/com/github/thiagotgm/blakebot/module/admin/TimeoutCommand.java:96-101 | a digit string parses exactly when its value fits in a `long`, and then to that value |
| TimeoutCommand.MatchTimeIff | blakebot-module-admin/src/main/java/com/github/thiagotgm/blakebot/module/admin/TimeoutCommand.java:89-93 | the groups are found exactly when the text is one or more digits followed by a unit letter |
| TimeoutCommand.LeadingZero | blakebot-module-admin/src/main/java/com/github/thiagotgm/blakebot/module/admin/TimeoutCommand.java:97 | leading zeros do not change the parsed amount |
| TimeoutCommand.ParseLongDecimal | blakebot-module-admin/src/main/java/com/github/thiagotgm/blakebot/module/admin/TimeoutCommand.java:96-101 | a decimal numeral parses to its number up to `Long.MAX_VALUE` and fails above it |
| TimeoutCommand.ToMillis | blakebot-module-admin/src/main/java/com/github/thiagotgm/blakebot/module/admin/TimeoutCommand.java:128 | the amount times 1000, 60000 or 3600000, saturated to `Long.MAX_VALUE` (or `Long.MIN_VALUE`) when the product leaves the range |
| TimeoutCommand.ParseTime | blakebot-module-admin/src/main/java/com/github/thiagotgm/blakebot/module/admin/TimeoutCommand.java:82-128 | fewer than two arguments and a first argument not matching the pattern each fail with their own message; a success is at least one second |
| TimeoutCommand.ParseTimeAmount | blakebot-module-admin/src/main/java/com/github/thiagotgm/blakebot/module/admin/TimeoutCommand.java:95-128 | for any digit string, leading zeros included: an amount above `Long.MAX_VALUE` is invalid, zero is not positive, any other amount gives its milliseconds |
| TimeoutCommand.ParseTimeDecimal | blakebot-module-admin/src/main/java/com/github/thiagotgm/blakebot/module/admin/TimeoutCommand.java:95-128 | the same for a decimal numeral without leading zeros |
| TimeoutCommand.MinutesExample | blakebot-module-admin/src/main/java/com/github/thiagotgm/blakebot/module/admin/TimeoutCommand.java:89-128 | "90m" parses to 5400000 ms |
| TimeoutCommand.LeadingZerosExample | blakebot-module-admin/src/main/java/com/github/thiagotgm/blakebot/module/admin/TimeoutCommand.java:89-128 | "007s" parses to 7000 ms: leading zeros are accepted |
| TimeoutCommand.InvalidTimeExamples | blakebot-module-admin/src/main/java/com/github/thiagotgm/blakebot/module/admin/TimeoutCommand.java:89-128 | "5x" and "h" are refused as invalid time arguments |
| TimeoutCommand.Join | blakebot-module-admin/src/main/java/com/github/thiagotgm/blakebot/module/admin/TimeoutCommand.java:156 | the lines in order with one line break between each two: the length is the lines' lengths plus the breaks, and the text begins with the first line |
| TimeoutCommand.Line | blakebot-module-admin/src/main/java/com/github/thiagotgm/blakebot/module/admin/TimeoutCommand.java:136-154 | a plain argument gives the not-a-user message; a line about a user holds its mention, after "Timed out " or "Lifted timeout for " on success and at the start otherwise (the untimeout and check forms are at 198-201 and 251-255) |
| TimeoutCommand.SplitJoin | blakebot-module-admin/src/main/java/com/github/thiagotgm/blakebot/module/admin/TimeoutCommand.java:156 | the lines joined with line breaks split back into the same lines |
| TimeoutCommand.Replies | blakebot-module-admin/src/main/java/com/github/thiagotgm/blakebot/module/admin/TimeoutCommand.java:136-154 | one reply line per argument, in order, each the line for that argument and the controller's answer |
| TimeoutCommand.CallsOnlyForMentions | blakebot-module-admin/src/main/java/com/github/thiagotgm/blakebot/module/admin/TimeoutCommand.java:139-146 | the controller is only called for mentioned users, and with the command's own kind of call and scope |
| TimeoutCommand.ReplyLoop | blakebot-module-admin/src/main/java/com/github/thiagotgm/blakebot/module/admin/TimeoutCommand.java:136-154 | the loop produces exactly the reply lines and the controller calls of the arguments |
| TimeoutCommand.TimeoutCmd | blakebot-module-admin/src/main/java/com/github/thiagotgm/blakebot/module/admin/TimeoutCommand.java:78-157 | a time error fails with its message and calls nothing; otherwise success, the joined replies for the arguments after the time, and one timeout call per mention with the parsed milliseconds |
| TimeoutCommand.UntimeoutCmd | blakebot-module-admin/src/main/java/com/github/thiagotgm/blakebot/module/admin/TimeoutCommand.java:172-208 | no argument fails with its message; otherwise success, the joined replies and one untimeout call per mention |
| TimeoutCommand.CheckCmd | blakebot-module-admin/src/main/java/com/github/thiagotgm/blakebot/module/admin/TimeoutCommand.java:233-262 | no argument fails with its message; otherwise success, the joined replies, a channel and a server query per mention |
| TimeoutCommand.OneLinePerArgument | blakebot-module-admin/src/main/java/com/github/thiagotgm/blakebot/module/admin/TimeoutCommand.java:136-156 | the joined reply reads as exactly one line per argument, in order |
| TimeoutCommand.CheckLineDeterminesStatus | blakebot-module-admin/src/main/java/com/github/thiagotgm/blakebot/module/admin/TimeoutCommand.java:251-253 | a check line determines the channel status and the server status independently |
| TimeoutCommand.OutcomeShown | blakebot-module-admin/src/main/java/com/github/thiagotgm/blakebot/module/admin/TimeoutCommand.java:147 | a success line differs from the "already timed out" (or "not timed out") line |
| IntegerTranslator.Clamp | blakebot-common/src/main/java/com/github/thiagotgm/blakebot/common/storage/translate/IntegerTranslator.java:55 | a value in the `int` range is unchanged, one above becomes `Integer.MAX_VALUE`, one below `Integer.MIN_VALUE` |
| IntegerTranslator.ToData | blakebot-common/src/main/java/com/github/thiagotgm/blakebot/common/storage/translate/IntegerTranslator.java:33-37 | an integer becomes number data holding it |
| IntegerTranslator.FromData | blakebot-common/src/main/java/com/github/thiagotgm/blakebot/common/storage/translate/IntegerTranslator.java:48-56 | data that is not a number fails with "Given data is not a number."; a number is clamped into the `int` range |
| IntegerTranslator.RoundTrip | blakebot-common/src/main/java/com/github/thiagotgm/blakebot/common/storage/translate/IntegerTranslator.java:33-56 | every `int` comes back unchanged from number data |
| IntegerTranslator.ClampMonotone | blakebot-common/src/main/java/com/github/thiagotgm/blakebot/common/storage/translate/IntegerTranslator.java:55 | clamping keeps order and is idempotent |
| IntegerTranslator.ClampNearest | blakebot-common/src/main/java/com/github/thiagotgm/blakebot/common/storage/translate/IntegerTranslator.java:39-46 | the clamped value is the `int` nearest to the stored number |

## Left out

- Unicode case folding (`UNICODE_CASE`): only ASCII letters are folded.
- The regex engine: REGEX matching is an oracle. Pattern compilation errors of REGEX restrictions are not modelled.
- The `Tree` and database backend, `Utils.idString` and the `XMLSet`/`XMLTranslator` persistence. The store is a map from path to set. `add` and `remove` change the set they fetched from the tree, and the model assumes the backend writes that change back: `Add` and `Remove` state the new tree as `Inserted`/`Removed` of the old one.
- The Java object identity of the store's sets: `get` returning a copy is modelled as returning a value.
- The singletons, `synchronized` and all concurrency.
- Logging, the uptime, downtime and connection log files, and the `Time` formatting wrapper (a time is its millisecond count).
- Discord objects, `CommandContext`, command annotations and the `TimeoutController`. The controller's answers are oracle parameters: its state and the effect of the calls are not modelled.
- The "Invalid time unit." branch of `timeoutCommand`. The pattern admits only s, m and h, so it cannot be reached.
- `String.hashCode` works on UTF-16 code units. `Restrictions.StringHash` works on Dafny characters, which agree for characters of the Basic Multilingual Plane.
- `Restriction.read` partly updates the object before it fails (the type is set before a body error). The model returns a new value or an error only.
- RestrictionXml.Read: a non-coalescing StAX reader may report one text as several character events, and `read` keeps only the last of them. The model leaves that choice to the event list it is given.
- RestrictionXml.WriteThenRead: the round trip assumes the reader gives back exactly the characters written, in one character event. Three things a real StAX pair does are not modelled:
  - a reader that splits the text gives back only the last part (see `RestrictionXml.LastCharactersWin`);
  - XML line-end normalisation reads a written `\r` back as `\n`;
  - a character XML 1.0 forbids, such as U+0001, is written unescaped and the parser rejects the document.
- UptimeTracker.UptimeTracker.TotalUptime: the contract states the sum only when it does not wrap around. Otherwise the result is the `long` wrap-around of the sum.
- UptimeTracker.UptimeTracker.TotalDowntime: the contract states the sum only when it does not wrap around. Otherwise the result is the `long` wrap-around of the sum.
- UptimeTracker.TimeData.Mean: the bound between minimum and maximum is stated only when the sum of the times does not wrap around.
- UptimeTracker.TimeData.Median: for an even count the value is stated exactly, but the bounds only when the sum of the two middle times does not wrap around.
- `toString`, `getText`, `getType` and the no-argument `Restriction` constructor: accessors and formatting with nothing to prove.
- XMLSerializer.java, XMLElement.java and the module and command glue classes are not part of this model.
