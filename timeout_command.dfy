/**
 * The timeout, untimeout and check commands: validation of the time argument,
 * its conversion to milliseconds, and the reply built with one line per
 * argument. The timeout controller is an outside collaborator: its answers
 * are oracle parameters indexed by the position of the argument, and the
 * calls made to it are returned as a list.
 */
module TimeoutCommand {
  import opened JavaLang

  const SERVER_MODIFIER: string := "Un/Timeout Server"

  datatype User = User(id: string, mention: string)

  /** A command argument: a mention of a user, or anything else. */
  datatype Argument = UserMention(text: string, user: User) | Plain(text: string)

  datatype Unit = Seconds | Minutes | Hours

  // ---------------------------------------------------------------------------
  // The time argument
  // ---------------------------------------------------------------------------

  predicate IsDigit(c: char)
  {
    '0' <= c <= '9'
  }

  predicate AllDigits(s: string)
  {
    forall i | 0 <= i < |s| :: IsDigit(s[i])
  }

  /** The unit letter of the time pattern. */
  function UnitOf(c: char): (r: Option<Unit>)
    ensures r.Some? <==> c in "smh"
  {
    if c == 's' then Some(Seconds)
    else if c == 'm' then Some(Minutes)
    else if c == 'h' then Some(Hours)
    else None
  }

  function UnitChar(u: Unit): (c: char)
    ensures UnitOf(c) == Some(u)
  {
    match u
    case Seconds => 's'
    case Minutes => 'm'
    case Hours => 'h'
  }

  /** The text matches `(\d+)([smh])` in full: one or more ASCII digits and a
      unit letter. */
  ghost predicate MatchesTimePattern(text: string)
  {
    exists digits: string, unit: char :: text == digits + [unit] && |digits| >= 1 && AllDigits(digits) && unit in "smh"
  }

  /** The two groups of the time pattern, when the text matches it. */
  function MatchTime(text: string): (r: Option<(string, Unit)>)
    ensures r.Some? ==> text == r.value.0 + [UnitChar(r.value.1)] && |r.value.0| >= 1 && AllDigits(r.value.0)
  {
    if |text| >= 2 && AllDigits(text[..|text| - 1]) && UnitOf(text[|text| - 1]).Some? then
      assert text == text[..|text| - 1] + [text[|text| - 1]];
      Some((text[..|text| - 1], UnitOf(text[|text| - 1]).value))
    else
      None
  }

  /** `MatchTime` succeeds exactly on the texts the pattern matches. */
  lemma MatchTimeIff(text: string)
    ensures MatchTime(text).Some? <==> MatchesTimePattern(text)
  {
    if MatchesTimePattern(text) {
      var digits: string, unit: char :| text == digits + [unit] && |digits| >= 1 && AllDigits(digits) && unit in "smh";
      assert text[..|text| - 1] == digits;
    }
    if MatchTime(text).Some? {
      var r := MatchTime(text).value;
      assert text == r.0 + [UnitChar(r.1)];
    }
  }

  /** The value of a string of decimal digits. */
  function DigitsValue(s: string): nat
    requires AllDigits(s)
  {
    if s == [] then 0 else DigitsValue(s[..|s| - 1]) * 10 + (s[|s| - 1] as int - '0' as int)
  }

  /** The decimal notation of `n`, without leading zeros. */
  function Decimal(n: nat): (s: string)
    ensures |s| >= 1 && AllDigits(s) && DigitsValue(s) == n
    ensures n >= 10 ==> s[0] != '0'
  {
    if n < 10 then
      [('0' as int + n) as char]
    else
      var front := Decimal(n / 10);
      var s := front + [('0' as int + n % 10) as char];
      assert s[..|s| - 1] == front;
      s
  }

  lemma DigitsValueSnoc(s: string, c: char)
    requires AllDigits(s) && IsDigit(c)
    ensures AllDigits(s + [c]) && DigitsValue(s + [c]) == DigitsValue(s) * 10 + (c as int - '0' as int)
  {
    assert (s + [c])[..|s|] == s;
  }

  /** Leading zeros do not change the value. */
  lemma {:induction false} LeadingZero(s: string)
    requires AllDigits(s)
    ensures AllDigits("0" + s) && DigitsValue("0" + s) == DigitsValue(s)
  {
    if s != [] {
      LeadingZero(s[..|s| - 1]);
      assert ("0" + s)[..|s|] == "0" + s[..|s| - 1];
    }
  }

  /** `Long.parseLong` on a string of digits: its value, or a failure when the
      value does not fit in a `long`. */
  function ParseLong(digits: string): (r: Option<Long>)
    requires AllDigits(digits)
    ensures r.Some? <==> DigitsValue(digits) <= LONG_MAX
    ensures r.Some? ==> r.value == DigitsValue(digits)
  {
    var n := DigitsValue(digits);
    if n <= LONG_MAX then Some(n) else None
  }

  /** Parsing a decimal numeral gives its number back, up to `Long.MAX_VALUE`,
      and fails above it. */
  lemma ParseLongDecimal(n: nat)
    ensures n <= LONG_MAX ==> ParseLong(Decimal(n)) == Some(n)
    ensures n > LONG_MAX ==> ParseLong(Decimal(n)) == None
  {
  }

  function Factor(u: Unit): int
  {
    match u
    case Seconds => 1000
    case Minutes => 60000
    case Hours => 3600000
  }

  /** `TimeUnit.toMillis`: the amount times the unit's length in
      milliseconds, saturated to the `long` range. */
  function ToMillis(d: Long, u: Unit): (r: Long)
    ensures -LONG_MAX <= d * Factor(u) <= LONG_MAX ==> r == d * Factor(u)
    ensures d * Factor(u) > LONG_MAX ==> r == LONG_MAX
    ensures d * Factor(u) < -LONG_MAX ==> r == LONG_MIN
  {
    match u
    case Seconds =>
      if d > LONG_MAX / 1000 then LONG_MAX else if d < -(LONG_MAX / 1000) then LONG_MIN else d * 1000
    case Minutes =>
      if d > LONG_MAX / 60000 then LONG_MAX else if d < -(LONG_MAX / 60000) then LONG_MIN else d * 60000
    case Hours =>
      if d > LONG_MAX / 3600000 then LONG_MAX else if d < -(LONG_MAX / 3600000) then LONG_MIN else d * 3600000
  }

  datatype TimeError = MissingArguments | InvalidTimeArgument | InvalidTimeAmount | NotPositive

  function TimeErrorMessage(e: TimeError): string
  {
    match e
    case MissingArguments => "Please specify a time and the user(s) to be timed out."
    case InvalidTimeArgument => "Invalid time argument."
    case InvalidTimeAmount => "Invalid time amount."
    case NotPositive => "Time must be larger than 0."
  }

  /** The checks `timeoutCommand` makes before its loop: at least two
      arguments, a first one matching the time pattern, an amount that fits
      in a `long` and is positive. The result is the timeout in
      milliseconds. */
  function ParseTime(args: seq<Argument>): (r: Result<Long, TimeError>)
    ensures r == Err(MissingArguments) <==> |args| < 2
    ensures r == Err(InvalidTimeArgument) <==> |args| >= 2 && !MatchesTimePattern(args[0].text)
    ensures r.Ok? ==> r.value >= 1000
  {
    if |args| < 2 then Err(MissingArguments)
    else
      MatchTimeIff(args[0].text);
      match MatchTime(args[0].text)
      case None => Err(InvalidTimeArgument)
      case Some((digits, unit)) =>
        match ParseLong(digits)
        case None => Err(InvalidTimeAmount)
        case Some(amount) =>
          if amount <= 0 then Err(NotPositive) else Ok(ToMillis(amount, unit))
  }

  /** A time argument of any digit string (leading zeros included) and a
      unit: an amount that does not fit in a `long` is an invalid amount,
      zero is refused as not positive, and any other amount gives that many
      units in milliseconds. */
  lemma ParseTimeAmount(digits: string, u: Unit, first: Argument, rest: seq<Argument>)
    requires |digits| >= 1 && AllDigits(digits)
    requires first.text == digits + [UnitChar(u)] && rest != []
    ensures DigitsValue(digits) > LONG_MAX ==> ParseTime([first] + rest) == Err(InvalidTimeAmount)
    ensures DigitsValue(digits) == 0 ==> ParseTime([first] + rest) == Err(NotPositive)
    ensures 1 <= DigitsValue(digits) <= LONG_MAX ==> ParseTime([first] + rest) == Ok(ToMillis(DigitsValue(digits), u))
  {
    var text := first.text;
    assert text[..|text| - 1] == digits;
    assert text[|text| - 1] == UnitChar(u);
    assert MatchTime(text) == Some((digits, u));
    assert ([first] + rest)[0] == first;
  }

  /** The same for a decimal numeral without leading zeros. */
  lemma ParseTimeDecimal(n: nat, u: Unit, first: Argument, rest: seq<Argument>)
    requires first.text == Decimal(n) + [UnitChar(u)] && rest != []
    ensures 1 <= n <= LONG_MAX ==> ParseTime([first] + rest) == Ok(ToMillis(n, u))
    ensures n == 0 ==> ParseTime([first] + rest) == Err(NotPositive)
    ensures n > LONG_MAX ==> ParseTime([first] + rest) == Err(InvalidTimeAmount)
  {
    ParseTimeAmount(Decimal(n), u, first, rest);
  }

  /** "90m" is ninety minutes. */
  lemma MinutesExample(first: Argument, rest: seq<Argument>)
    requires rest != [] && first.text == "90m"
    ensures ParseTime([first] + rest) == Ok(5400000)
  {
    assert ([first] + rest)[0] == first;
    assert first.text[..2] == "90";
    assert DigitsValue("90") == 90 by {
      assert "90" == "9" + "0";
      DigitsValueSnoc("9", '0');
    }
    assert MatchTime(first.text) == Some(("90", Minutes));
  }

  /** "007s" is seven seconds: leading zeros are accepted. */
  lemma LeadingZerosExample(first: Argument, rest: seq<Argument>)
    requires rest != [] && first.text == "007s"
    ensures ParseTime([first] + rest) == Ok(7000)
  {
    assert ([first] + rest)[0] == first;
    assert first.text[..3] == "007";
    assert DigitsValue("007") == 7 by {
      assert "007" == "0" + "07" && "07" == "0" + "7";
      LeadingZero("07");
      LeadingZero("7");
    }
    assert MatchTime(first.text) == Some(("007", Seconds));
  }

  /** A unit outside s, m and h, or a missing amount, is not a time. */
  lemma InvalidTimeExamples(first: Argument, rest: seq<Argument>)
    requires rest != []
    ensures first.text == "5x" ==> ParseTime([first] + rest) == Err(InvalidTimeArgument)
    ensures first.text == "h" ==> ParseTime([first] + rest) == Err(InvalidTimeArgument)
  {
    assert ([first] + rest)[0] == first;
  }

  /** The total length of some lines. */
  function Lengths(lines: seq<string>): nat
  {
    if lines == [] then 0 else |lines[0]| + Lengths(lines[1..])
  }

  /** Java's `String.join("\n", lines)`: the lines in order, with one line
      break between each two of them. */
  function Join(lines: seq<string>): (s: string)
    ensures lines == [] ==> s == ""
    ensures lines != [] ==> |s| == Lengths(lines) + |lines| - 1
    ensures lines != [] ==> s[..|lines[0]|] == lines[0]
  {
    if |lines| == 0 then ""
    else if |lines| == 1 then lines[0]
    else lines[0] + "\n" + Join(lines[1..])
  }

  /** The position of the first line break, or the length when there is
      none. */
  function LineEnd(s: string): (i: nat)
    ensures i <= |s|
    ensures forall j | 0 <= j < i :: s[j] != '\n'
    ensures i < |s| ==> s[i] == '\n'
  {
    if s == [] || s[0] == '\n' then 0 else 1 + LineEnd(s[1..])
  }

  /** The lines of a text, as a reader of the reply sees them. */
  function SplitLines(s: string): seq<string>
    decreases |s|
  {
    var i := LineEnd(s);
    if i == |s| then [s] else [s[..i]] + SplitLines(s[i + 1..])
  }

  /** Joining lines that hold no line break and splitting the result gives
      the lines back. */
  lemma {:induction false} SplitJoin(lines: seq<string>)
    requires |lines| >= 1
    requires forall k | 0 <= k < |lines| :: '\n' !in lines[k]
    ensures SplitLines(Join(lines)) == lines
  {
    if |lines| > 1 {
      var head := lines[0];
      var s := Join(lines);
      assert s == head + "\n" + Join(lines[1..]);
      assert s[|head|] == '\n';
      assert LineEnd(s) == |head|;
      assert s[..|head|] == head;
      assert s[|head| + 1..] == Join(lines[1..]);
      SplitJoin(lines[1..]);
      assert lines == [head] + lines[1..];
    }
  }

  // ---------------------------------------------------------------------------
  // Replies
  // ---------------------------------------------------------------------------

  /** Which command builds the reply. */
  datatype Command = Timeout(millis: Long) | Untimeout | Check

  /** A call made to the timeout controller. */
  datatype ControllerCall =
    | TimeoutCall(user: User, serverScope: bool, millis: Long)
    | UntimeoutCall(user: User, serverScope: bool)
    | HasTimeoutCall(user: User, serverScope: bool)

  function Scope(serverScope: bool): string
  {
    if serverScope then "server" else "channel"
  }

  function NotUserMessage(text: string): string
  {
    "Argument \"" + text + "\" not an user."
  }

  /** `t` occurs in `s` at position `i`. */
  predicate OccursAt(s: string, t: string, i: int)
  {
    0 <= i <= |s| - |t| && s[i..i + |t|] == t
  }

  /** Where a reply line about a user puts the mention: after "Timed out "
      or "Lifted timeout for " on success, at the start otherwise. */
  function MentionAt(cmd: Command, first: bool): nat
  {
    match cmd
    case Timeout(_) => if first then 10 else 0
    case Untimeout => if first then 19 else 0
    case Check => 0
  }

  /** The reply line for one argument. `first` is the controller's answer to
      the timeout or untimeout call, or whether the user is timed out on the
      channel; `second` whether the user is timed out on the server. A plain
      argument is reported as not a user; a line about a user mentions them. */
  function Line(cmd: Command, arg: Argument, first: bool, second: bool, scope: string): (l: string)
    ensures arg.Plain? ==> l == NotUserMessage(arg.text)
    ensures arg.UserMention? ==> OccursAt(l, arg.user.mention, MentionAt(cmd, first))
  {
    match arg
    case Plain(text) => NotUserMessage(text)
    case UserMention(_, user) =>
      var m := user.mention;
      match cmd
      case Timeout(_) =>
        if first then
          var l := "Timed out " + m + " in this " + scope + ".";
          assert OccursAt(l, m, 10);
          l
        else
          var l := m + " is already timed out in this " + scope + ".";
          assert OccursAt(l, m, 0);
          l
      case Untimeout =>
        if first then
          var l := "Lifted timeout for " + m + " in this " + scope + ".";
          assert OccursAt(l, m, 19);
          l
        else
          var l := m + " is not timed out in this " + scope + ".";
          assert OccursAt(l, m, 0);
          l
      case Check =>
        var l := m + ": " + (if first then "" else "not ") + "timed out on channel, "
                 + (if second then "" else "not ") + "timed out on server.";
        assert OccursAt(l, m, 0);
        l
  }

  /** The reply lines for a list of arguments: one per argument, in order. */
  function Replies(cmd: Command, args: seq<Argument>, first: nat -> bool, second: nat -> bool, scope: string): (r: seq<string>)
    ensures |r| == |args|
    ensures forall i | 0 <= i < |args| :: r[i] == Line(cmd, args[i], first(i), second(i), scope)
  {
    if args == [] then []
    else
      var n := |args| - 1;
      var front := args[..n];
      assert forall i | 0 <= i < n :: front[i] == args[i];
      Replies(cmd, front, first, second, scope) + [Line(cmd, args[n], first(n), second(n), scope)]
  }

  /** The controller calls one argument leads to. */
  function CallsFor(cmd: Command, arg: Argument, serverScope: bool): seq<ControllerCall>
  {
    match arg
    case Plain(_) => []
    case UserMention(_, user) =>
      match cmd
      case Timeout(millis) => [TimeoutCall(user, serverScope, millis)]
      case Untimeout => [UntimeoutCall(user, serverScope)]
      case Check => [HasTimeoutCall(user, false), HasTimeoutCall(user, true)]
  }

  /** The controller calls a list of arguments leads to, in order. */
  function Calls(cmd: Command, args: seq<Argument>, serverScope: bool): seq<ControllerCall>
  {
    if args == [] then []
    else Calls(cmd, args[..|args| - 1], serverScope) + CallsFor(cmd, args[|args| - 1], serverScope)
  }

  /** Only mentioned users reach the controller, each in a call of the
      command's own kind. */
  lemma {:induction false} CallsOnlyForMentions(cmd: Command, args: seq<Argument>, serverScope: bool, c: ControllerCall)
    requires c in Calls(cmd, args, serverScope)
    ensures exists i | 0 <= i < |args| :: args[i].UserMention? && c.user == args[i].user
    ensures cmd.Timeout? ==> c == TimeoutCall(c.user, serverScope, cmd.millis)
    ensures cmd.Untimeout? ==> c == UntimeoutCall(c.user, serverScope)
    ensures cmd.Check? ==> c.HasTimeoutCall?
  {
    var front := args[..|args| - 1];
    if c in Calls(cmd, front, serverScope) {
      CallsOnlyForMentions(cmd, front, serverScope, c);
      var i :| 0 <= i < |front| && front[i].UserMention? && c.user == front[i].user;
      assert args[i] == front[i];
    } else {
      assert c in CallsFor(cmd, args[|args| - 1], serverScope);
    }
  }

  /** The loop shared by the three commands: one reply line per argument,
      and the controller calls made on the way. */
  method ReplyLoop(cmd: Command, args: seq<Argument>, first: nat -> bool, second: nat -> bool, serverScope: bool)
    returns (replies: seq<string>, calls: seq<ControllerCall>)
    ensures replies == Replies(cmd, args, first, second, Scope(serverScope))
    ensures calls == Calls(cmd, args, serverScope)
  {
    var scope := Scope(serverScope);
    replies, calls := [], [];
    for i := 0 to |args|
      invariant replies == Replies(cmd, args[..i], first, second, scope)
      invariant calls == Calls(cmd, args[..i], serverScope)
    {
      var arg := args[i];
      var message;
      if arg.UserMention? {
        calls := calls + CallsFor(cmd, arg, serverScope);
        message := Line(cmd, arg, first(i), second(i), scope);
      } else {
        message := NotUserMessage(arg.text);
      }
      replies := replies + [message];
      PrefixStep(cmd, args, i, first, second, scope, serverScope);
    }
    assert args[..|args|] == args;
  }

  /** Extending the processed prefix by one argument extends the replies by
      its line and the calls by its calls. */
  lemma PrefixStep(cmd: Command, args: seq<Argument>, i: nat, first: nat -> bool, second: nat -> bool, scope: string, serverScope: bool)
    requires i < |args|
    ensures Replies(cmd, args[..i + 1], first, second, scope)
         == Replies(cmd, args[..i], first, second, scope) + [Line(cmd, args[i], first(i), second(i), scope)]
    ensures Calls(cmd, args[..i + 1], serverScope) == Calls(cmd, args[..i], serverScope) + CallsFor(cmd, args[i], serverScope)
  {
    assert args[..i + 1][..i] == args[..i];
  }

  /** `timeoutCommand`: on a valid time, one line per user argument after
      it, and a timeout request per mentioned user, on the server when the
      command is the server sub-command. `answer(i)` is the controller's
      answer for the i-th argument after the time. */
  method TimeoutCmd(commandName: string, args: seq<Argument>, answer: nat -> bool)
    returns (success: bool, helper: string, calls: seq<ControllerCall>)
    ensures ParseTime(args).Err? ==> !success && helper == TimeErrorMessage(ParseTime(args).error) && calls == []
    ensures ParseTime(args).Ok? ==>
      (success
       && helper == Join(Replies(Timeout(ParseTime(args).value), args[1..], answer, answer, Scope(commandName == SERVER_MODIFIER)))
       && calls == Calls(Timeout(ParseTime(args).value), args[1..], commandName == SERVER_MODIFIER))
  {
    var time := ParseTime(args);
    if time.Err? {
      return false, TimeErrorMessage(time.error), [];
    }
    var replies;
    replies, calls := ReplyLoop(Timeout(time.value), args[1..], answer, answer, commandName == SERVER_MODIFIER);
    return true, Join(replies), calls;
  }

  /** `untimeoutCommand`: at least one argument, then one line per
      argument and an untimeout request per mentioned user. */
  method UntimeoutCmd(commandName: string, args: seq<Argument>, answer: nat -> bool)
    returns (success: bool, helper: string, calls: seq<ControllerCall>)
    ensures args == [] ==> !success && helper == "Please specify the user(s) to be un-timed out." && calls == []
    ensures args != [] ==>
      (success
       && helper == Join(Replies(Untimeout, args, answer, answer, Scope(commandName == SERVER_MODIFIER)))
       && calls == Calls(Untimeout, args, commandName == SERVER_MODIFIER))
  {
    if |args| < 1 {
      return false, "Please specify the user(s) to be un-timed out.", [];
    }
    var replies;
    replies, calls := ReplyLoop(Untimeout, args, answer, answer, commandName == SERVER_MODIFIER);
    return true, Join(replies), calls;
  }

  /** `checkCommand`: at least one argument, then one line per argument
      reporting the channel and the server timeout independently. */
  method CheckCmd(args: seq<Argument>, onChannel: nat -> bool, onServer: nat -> bool)
    returns (success: bool, helper: string, calls: seq<ControllerCall>)
    ensures args == [] ==> !success && helper == "Please specify the user(s) to be checked." && calls == []
    ensures args != [] ==>
      (success
       && helper == Join(Replies(Check, args, onChannel, onServer, "channel"))
       && calls == Calls(Check, args, false))
  {
    if |args| < 1 {
      return false, "Please specify the user(s) to be checked.", [];
    }
    var replies;
    replies, calls := ReplyLoop(Check, args, onChannel, onServer, false);
    return true, Join(replies), calls;
  }

  // ---------------------------------------------------------------------------
  // Properties of the replies
  // ---------------------------------------------------------------------------

  predicate NoLineBreak(s: string)
  {
    '\n' !in s
  }

  /** The argument's own text, for a reader, holds no line break. */
  predicate SingleLine(arg: Argument)
  {
    match arg
    case Plain(text) => NoLineBreak(text)
    case UserMention(_, user) => NoLineBreak(user.mention)
  }

  /** The fixed parts of the reply lines hold no line break. */
  lemma NotUserPartsSingle()
    ensures NoLineBreak("Argument \"") && NoLineBreak("\" not an user.")
  {
  }

  lemma ScopePartsSingle()
    ensures NoLineBreak(" in this ") && NoLineBreak(".")
  {
  }

  lemma TimeoutPartsSingle()
    ensures NoLineBreak("Timed out ") && NoLineBreak(" is already timed out in this ")
  {
  }

  lemma UntimeoutPartsSingle()
    ensures NoLineBreak("Lifted timeout for ") && NoLineBreak(" is not timed out in this ")
  {
  }

  lemma CheckPartsSingle()
    ensures NoLineBreak(": ") && NoLineBreak("not ") && NoLineBreak("")
    ensures NoLineBreak("timed out on channel, ") && NoLineBreak("timed out on server.")
  {
  }

  lemma ConcatSingle(a: string, b: string)
    requires NoLineBreak(a) && NoLineBreak(b)
    ensures NoLineBreak(a + b)
  {
  }

  lemma LineIsSingle(cmd: Command, arg: Argument, first: bool, second: bool, scope: string)
    requires SingleLine(arg) && NoLineBreak(scope)
    ensures NoLineBreak(Line(cmd, arg, first, second, scope))
  {
    match arg {
      case Plain(text) =>
        NotUserPartsSingle();
        ConcatSingle("Argument \"", text);
        ConcatSingle("Argument \"" + text, "\" not an user.");
      case UserMention(_, user) =>
        var m := user.mention;
        match cmd {
          case Timeout(_) =>
            ScopePartsSingle();
            TimeoutPartsSingle();
            if first {
              ConcatSingle("Timed out ", m);
              ConcatSingle("Timed out " + m, " in this ");
              ConcatSingle("Timed out " + m + " in this ", scope);
              ConcatSingle("Timed out " + m + " in this " + scope, ".");
            } else {
              ConcatSingle(m, " is already timed out in this ");
              ConcatSingle(m + " is already timed out in this ", scope);
              ConcatSingle(m + " is already timed out in this " + scope, ".");
            }
          case Untimeout =>
            ScopePartsSingle();
            UntimeoutPartsSingle();
            if first {
              ConcatSingle("Lifted timeout for ", m);
              ConcatSingle("Lifted timeout for " + m, " in this ");
              ConcatSingle("Lifted timeout for " + m + " in this ", scope);
              ConcatSingle("Lifted timeout for " + m + " in this " + scope, ".");
            } else {
              ConcatSingle(m, " is not timed out in this ");
              ConcatSingle(m + " is not timed out in this ", scope);
              ConcatSingle(m + " is not timed out in this " + scope, ".");
            }
          case Check =>
            CheckPartsSingle();
            var c, v := (if first then "" else "not "), (if second then "" else "not ");
            ConcatSingle(m, ": ");
            ConcatSingle(m + ": ", c);
            ConcatSingle(m + ": " + c, "timed out on channel, ");
            ConcatSingle(m + ": " + c + "timed out on channel, ", v);
            ConcatSingle(m + ": " + c + "timed out on channel, " + v, "timed out on server.");
        }
    }
  }

  /** The joined reply reads as exactly one line per argument, in order, as
      long as no mention, argument text or scope holds a line break. */
  lemma OneLinePerArgument(cmd: Command, args: seq<Argument>, first: nat -> bool, second: nat -> bool, scope: string)
    requires args != [] && NoLineBreak(scope)
    requires forall i | 0 <= i < |args| :: SingleLine(args[i])
    ensures var lines := SplitLines(Join(Replies(cmd, args, first, second, scope)));
      |lines| == |args|
      && forall i | 0 <= i < |args| :: lines[i] == Line(cmd, args[i], first(i), second(i), scope)
  {
    var r := Replies(cmd, args, first, second, scope);
    forall k | 0 <= k < |r| ensures '\n' !in r[k] {
      LineIsSingle(cmd, args[k], first(k), second(k), scope);
    }
    SplitJoin(r);
  }

  /** A check line tells the channel status and the server status apart: the
      line determines both. */
  lemma CheckLineDeterminesStatus(arg: Argument, a: bool, b: bool, c: bool, d: bool)
    requires arg.UserMention?
    requires Line(Check, arg, a, b, "channel") == Line(Check, arg, c, d, "channel")
    ensures a == c && b == d
  {
    var m := arg.user.mention;
    var l1, l2 := Line(Check, arg, a, b, "channel"), Line(Check, arg, c, d, "channel");
    var p := |m| + 2;
    assert l1[p] == (if a then 't' else 'n');
    assert l2[p] == (if c then 't' else 'n');
    var q1, q2 := p + (if a then 0 else 4) + 22, p + (if c then 0 else 4) + 22;
    assert l1[q1] == (if b then 't' else 'n');
    assert l2[q2] == (if d then 't' else 'n');
  }

  /** A timeout or untimeout line tells success apart from the "already" or
      "not timed out" answer. */
  lemma OutcomeShown(cmd: Command, arg: Argument, second: bool, scope: string)
    requires !cmd.Check? && arg.UserMention?
    ensures Line(cmd, arg, true, second, scope) != Line(cmd, arg, false, second, scope)
  {
    var l1, l2 := Line(cmd, arg, true, second, scope), Line(cmd, arg, false, second, scope);
    assert |l1| != |l2|;
  }
}
