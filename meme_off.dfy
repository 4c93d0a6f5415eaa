/** The meme-off round bookkeeping (`cogs/meme_off.py`): per-user bags of
    submitted template links, the round timer and its deadline text, the
    rotation that draws the next template, and who has a template pinned.
    Discord messages, pins and sleeps are left to the caller; the random
    draws arrive as parameters. */
module MemeOffRounds {
  import opened Wrappers
  import opened Strings

  // ---------------------------------------------------------------------
  // A user's bag of templates

  /** `get_template` on a bag: `random.choice` (the `pick`, reduced to an
      index) chooses a link and `list.remove` takes out its first
      occurrence. Any element can be chosen, exactly one copy of it leaves
      the bag, and an empty bag yields nothing and stays empty. */
  function Draw(bag: seq<string>, pick: nat): (r: (Option<string>, seq<string>))
    ensures bag == [] ==> r == (None, [])
    ensures bag != [] ==> r.0.Some? && r.0.value in bag
    ensures bag != [] ==> multiset(r.1) == multiset(bag) - multiset{r.0.value}
    ensures pick < |bag| ==> r.0 == Some(bag[pick])
  {
    if bag == [] then (None, [])
    else
      var i := pick % |bag|;
      assert pick < |bag| ==> i == pick;
      RemoveFirstCount(bag, bag[i]);
      (Some(bag[i]), RemoveFirst(bag, bag[i]))
  }

  /** `TemplateSubmission`: the links one user has handed in. */
  class TemplateSubmission {
    const userId: nat
    var templates: seq<string>

    constructor (userId: nat)
      ensures this.userId == userId && templates == []
    {
      this.userId := userId;
      templates := [];
    }

    /** `add_template` */
    method AddTemplate(link: string)
      modifies this`templates
      ensures templates == old(templates) + [link]
    {
      templates := templates + [link];
    }

    /** `get_template` */
    method GetTemplate(pick: nat) returns (choice: Option<string>)
      modifies this`templates
      ensures (choice, templates) == Draw(old(templates), pick)
    {
      if templates != [] {
        var c := templates[pick % |templates|];
        templates := RemoveFirst(templates, c);
        choice := Some(c);
      } else {
        choice := None;
      }
    }
  }

  // ---------------------------------------------------------------------
  // Round durations: `meme_off_start`

  /** One trailing `s` is dropped, so `"30 minutes"` reads as `"30 minute"`. */
  function Stripped(text: string): string
  {
    if EndsWith(text, "s") then text[..|text| - 1] else text
  }

  /** The `time_units` table. */
  function UnitSeconds(unit: string): Option<nat>
  {
    if unit == "hour" then Some(3600)
    else if unit == "minute" then Some(60)
    else if unit == "second" then Some(1)
    else None
  }

  /** The two words of a duration and the delay they give, in seconds. */
  datatype Duration = Duration(amount: string, unit: string, delay: int)

  /** Why a duration is refused: the unpacking of `split(" ")` fails, the
      unit is not in the table (answered), or `int(amount)` fails. */
  datatype DurationError = NotTwoWords | UnknownUnit | NotANumber

  /** The parsing in `meme_off_start`. The unit is looked up before the
      amount is converted. */
  function ParseDuration(text: string): Result<Duration, DurationError>
  {
    var words := Split(Stripped(text), ' ');
    if |words| != 2 then Err(NotTwoWords)
    else if UnitSeconds(words[1]).None? then Err(UnknownUnit)
    else match ParseInt(words[0])
      case None => Err(NotANumber)
      case Some(n) => Ok(Duration(words[0], words[1], n * UnitSeconds(words[1]).value))
  }

  lemma SplitTwoWords(amount: string, unit: string)
    requires ' ' !in amount && ' ' !in unit
    ensures Split(amount + " " + unit, ' ') == [amount, unit]
  {
    assert Join([' '], [amount, unit]) == amount + " " + unit;
    SplitJoin([amount, unit], ' ');
  }

  /** Any integer written out, a space and a unit, with or without a
      plural `s`, parses back to that integer times the unit's seconds. */
  lemma ParseShownDuration(n: int, unit: string, plural: bool)
    requires UnitSeconds(unit).Some?
    ensures ParseDuration(ShowInt(n) + " " + unit + (if plural then "s" else ""))
         == Ok(Duration(ShowInt(n), unit, n * UnitSeconds(unit).value))
  {
    var amount := ShowInt(n);
    var text := amount + " " + unit + (if plural then "s" else "");
    ShowNatDigits(if n < 0 then -n else n);
    assert ' ' !in amount by {
      if n < 0 {
        assert amount == "-" + ShowNat(-n);
        assert forall i :: 0 <= i < |amount| ==> amount[i] != ' ' by {
          forall i | 0 <= i < |amount| ensures amount[i] != ' ' {
            if i > 0 { assert amount[i] == ShowNat(-n)[i - 1]; }
          }
        }
      } else {
        assert forall i :: 0 <= i < |amount| ==> amount[i] != ' ';
      }
    }
    if plural {
      assert EndsWith(text, "s");
      assert text[..|text| - 1] == amount + " " + unit;
    } else {
      assert text == amount + " " + unit;
      assert text[|text| - 1] == unit[|unit| - 1];
    }
    assert Stripped(text) == amount + " " + unit;
    SplitTwoWords(amount, unit);
    ParseShowInt(n);
  }

  /** A unit outside the table is refused whatever the amount is, even one
      that is no number. */
  lemma UnknownUnitRefused(amount: string, unit: string)
    requires ' ' !in amount && ' ' !in unit && unit != []
    requires UnitSeconds(Stripped(unit)).None?
    ensures ParseDuration(amount + " " + unit) == Err(UnknownUnit)
  {
    var text := amount + " " + unit;
    if EndsWith(unit, "s") {
      assert text[|text| - 1] == unit[|unit| - 1];
      assert text[..|text| - 1] == amount + " " + unit[..|unit| - 1];
      assert Stripped(unit) == unit[..|unit| - 1];
    } else {
      assert text[|text| - 1] == unit[|unit| - 1];
    }
    assert Stripped(text) == amount + " " + Stripped(unit);
    assert ' ' !in Stripped(unit);
    SplitTwoWords(amount, Stripped(unit));
  }

  /** `"30 minutes"` is half an hour and `"2 hours"` two. */
  lemma DurationExamples()
    ensures ParseDuration("30 minutes") == Ok(Duration("30", "minute", 1800))
    ensures ParseDuration("2 hours") == Ok(Duration("2", "hour", 7200))
  {
    assert ShowInt(30) == "30" by {
      assert ShowNat(3) == "3";
    }
    assert "30 minutes" == ShowInt(30) + " " + "minute" + "s";
    ParseShownDuration(30, "minute", true);
    assert ShowInt(2) == "2";
    assert "2 hours" == ShowInt(2) + " " + "hour" + "s";
    ParseShownDuration(2, "hour", true);
  }

  /** Only one `s` goes, so a doubled one leaves no unit. */
  lemma DoubledSRefused()
    ensures ParseDuration("30 minutess") == Err(UnknownUnit)
  {
    assert "30 minutess" == "30" + " " + "minutess";
    UnknownUnitRefused("30", "minutess");
  }

  /** A single word is not an amount and a unit. */
  lemma OneWordRefused()
    ensures ParseDuration("30") == Err(NotTwoWords)
  {
    assert Stripped("30") == "30";
    SplitOfPlain("30", "", ' ');
    assert "30" + "" == "30";
  }

  /** A known unit after an amount `int` cannot read is refused as no
      number. */
  lemma NotANumberRefused(amount: string, unit: string)
    requires ' ' !in amount && ' ' !in unit && unit != []
    requires UnitSeconds(Stripped(unit)).Some? && ParseInt(amount).None?
    ensures ParseDuration(amount + " " + unit) == Err(NotANumber)
  {
    var text := amount + " " + unit;
    if EndsWith(unit, "s") {
      assert text[|text| - 1] == unit[|unit| - 1];
      assert text[..|text| - 1] == amount + " " + unit[..|unit| - 1];
      assert Stripped(unit) == unit[..|unit| - 1];
    } else {
      assert text[|text| - 1] == unit[|unit| - 1];
    }
    assert Stripped(text) == amount + " " + Stripped(unit);
    assert ' ' !in Stripped(unit);
    SplitTwoWords(amount, Stripped(unit));
  }

  /** A spelled-out amount is no number. */
  lemma WordAmountRefused()
    ensures ParseDuration("thirty minutes") == Err(NotANumber)
  {
    assert "thirty minutes" == "thirty" + " " + "minutes";
    assert Stripped("minutes") == "minute" by {
      assert EndsWith("minutes", "s");
    }
    assert ParseInt("thirty") == None by {
      assert !IsDigit("thirty"[0]);
    }
    NotANumberRefused("thirty", "minutes");
  }

  // ---------------------------------------------------------------------
  // Time left: `meme_off_deadline`

  /** A `timedelta` as `days`, and its `seconds` split by `divmod` into
      hours, minutes and seconds. */
  datatype Breakdown = Breakdown(days: int, hours: nat, minutes: nat, seconds: nat)

  /** The breakdown of a span of `diff` seconds (negative once the
      deadline has passed): `timedelta` keeps `0 <= seconds < 86400` and
      floors the days, and the two `divmod`s bound minutes and seconds. */
  function Remaining(diff: int): (b: Breakdown)
    ensures b.hours < 24 && b.minutes < 60 && b.seconds < 60
    ensures b.hours * 3600 + b.minutes * 60 + b.seconds == diff % 86400
    ensures b.days * 86400 + b.hours * 3600 + b.minutes * 60 + b.seconds == diff
  {
    var secs := diff % 86400;
    var minutes := secs / 60;
    assert secs == minutes * 60 + secs % 60;
    assert minutes == (minutes / 60) * 60 + minutes % 60;
    assert secs == (minutes / 60) * 3600 + (minutes % 60) * 60 + secs % 60;
    Breakdown(diff / 86400, minutes / 60, minutes % 60, secs % 60)
  }

  lemma DivModUnique(x: int, d: int, q: int, r: int)
    requires d > 0 && 0 <= r < d && x == q * d + r
    ensures q == x / d && r == x % d
  {
    var q0, r0 := x / d, x % d;
    assert (q - q0) * d == r0 - r by {
      assert x == q0 * d + r0;
      assert (q - q0) * d == q * d - q0 * d;
    }
    if q - q0 >= 1 {
      MulAtLeast(q - q0, d);
    } else if q0 - q >= 1 {
      MulAtLeast(q0 - q, d);
    }
  }

  lemma MulAtLeast(a: int, d: int)
    requires a >= 1 && d > 0
    ensures a * d >= d
  {
    assert a * d == (a - 1) * d + d;
  }

  /** The breakdown is the only one with components in range that adds up
      to the span. */
  lemma RemainingUnique(diff: int, b: Breakdown)
    requires b.hours < 24 && b.minutes < 60 && b.seconds < 60
    requires b.days * 86400 + b.hours * 3600 + b.minutes * 60 + b.seconds == diff
    ensures b == Remaining(diff)
  {
    var secs := b.hours * 3600 + b.minutes * 60 + b.seconds;
    DivModUnique(diff, 86400, b.days, secs);
    var m := b.hours * 60 + b.minutes;
    assert secs == m * 60 + b.seconds;
    DivModUnique(secs, 60, m, b.seconds);
    DivModUnique(m, 60, b.hours, b.minutes);
  }

  /** One component of the message: left out when zero, plural above one. */
  function Part(n: int, unit: string): string
  {
    if n == 0 then "" else ShowInt(n) + " " + unit + (if n > 1 then "s" else "") + " "
  }

  /** The text `meme_off_deadline` sends for a span of `diff` seconds. */
  function DeadlineText(diff: int): string
  {
    var b := Remaining(diff);
    Part(b.days, "day") + Part(b.hours, "hour") + Part(b.minutes, "minute")
      + (if b.seconds == 0 then "" else "and " + Part(b.seconds, "second")) + "left"
  }

  /** A component is written with a plural `s` exactly when it is above one. */
  lemma PartPlural(n: int, unit: string)
    requires unit != [] && unit[|unit| - 1] != 's'
    ensures Part(n, unit) == "" <==> n == 0
    ensures EndsWith(Part(n, unit), "s ") <==> n > 1
  {
    var p := Part(n, unit);
    if n != 0 {
      var s := if n > 1 then "s" else "";
      assert p == ShowInt(n) + " " + unit + s + " ";
      assert p[|p| - 1] == ' ';
      if n <= 1 {
        assert p[|p| - 2] == unit[|unit| - 1];
        assert p[|p| - 2..] != "s ";
      } else {
        assert p[|p| - 2..] == "s ";
      }
    }
  }

  /** The message is the bare `left` exactly when no time is left. */
  lemma DeadlineLeftOnly(diff: int)
    ensures DeadlineText(diff) == "left" <==> diff == 0
  {
    var b := Remaining(diff);
    PartPlural(b.days, "day");
    PartPlural(b.hours, "hour");
    PartPlural(b.minutes, "minute");
    PartPlural(b.seconds, "second");
    var text := DeadlineText(diff);
    var head := Part(b.days, "day") + Part(b.hours, "hour") + Part(b.minutes, "minute")
      + (if b.seconds == 0 then "" else "and " + Part(b.seconds, "second"));
    assert text == head + "left";
    if text == "left" {
      assert |head| == 0;
      assert b.days == 0 && b.hours == 0 && b.minutes == 0 && b.seconds == 0;
    }
  }

  /** Under a minute only the seconds are spoken, after an `and`. */
  lemma DeadlineUnderAMinute(diff: int)
    requires 0 < diff < 60
    ensures DeadlineText(diff)
         == "and " + ShowNat(diff) + " second" + (if diff > 1 then "s" else "") + " left"
  {
    assert diff % 86400 == diff && diff / 86400 == 0 && diff / 60 == 0 && diff % 60 == diff;
    var b := Remaining(diff);
    assert b == Breakdown(0, 0, 0, diff);
    var p := ShowNat(diff) + " " + "second" + (if diff > 1 then "s" else "") + " ";
    assert Part(b.seconds, "second") == p;
    assert DeadlineText(diff) == "" + "" + "" + ("and " + p) + "left";
  }

  // ---------------------------------------------------------------------
  // The template rotation: `meme_off_template`

  /** One `template_order.pop()` and the draw from that user's bag: the
      user popped, whether the id had no bag any more (a `KeyError`), the
      template if it is usable (starts with `http`), and the new bags and
      order. */
  datatype Attempt = Attempt(missing: bool, template: Option<string>, from: nat,
                             bags: map<nat, seq<string>>, order: seq<nat>)

  function Pop(bags: map<nat, seq<string>>, order: seq<nat>, pick: nat): Attempt
    requires order != []
  {
    var id := order[|order| - 1];
    var rest := order[..|order| - 1];
    if id !in bags then Attempt(true, None, id, bags, rest)
    else
      var (t, bag) := Draw(bags[id], pick);
      Attempt(false, if t.Some? && StartsWith(t.value, "http") then t else None,
              id, bags[id := bag], rest)
  }

  /** How rotation ends: with a usable template drawn from a user, with the
      order used up, or with an id whose bag is gone. */
  datatype Rotation =
    | Found(template: string, from: nat, bags: map<nat, seq<string>>, order: seq<nat>)
    | Exhausted(bags: map<nat, seq<string>>, order: seq<nat>)
    | Missing(bags: map<nat, seq<string>>, order: seq<nat>)

  /** The `random.choice` of attempt `k`. */
  function Choice(picks: seq<nat>, k: nat): nat
  {
    if k < |picks| then picks[k] else 0
  }

  /** The selection loop from attempt `k` on: pop, draw, and go on while
      nothing usable came out and ids are left. */
  function Rotate(bags: map<nat, seq<string>>, order: seq<nat>, picks: seq<nat>, k: nat): Rotation
    decreases |order|
  {
    if order == [] then Exhausted(bags, [])
    else
      var a := Pop(bags, order, Choice(picks, k));
      if a.missing then Missing(a.bags, a.order)
      else if a.template.Some? then Found(a.template.value, a.from, a.bags, a.order)
      else Rotate(a.bags, a.order, picks, k + 1)
  }

  /** Each attempt pops one id off the end: what is left of the order is a
      prefix of it, shorter by at least one, and empty when the order ran
      out. */
  lemma {:induction false} RotateOrder(bags: map<nat, seq<string>>, order: seq<nat>, picks: seq<nat>, k: nat)
    ensures var r := Rotate(bags, order, picks, k);
      && |r.order| <= |order| && r.order == order[..|r.order|]
      && (order != [] ==> |r.order| < |order|)
      && (r.Exhausted? ==> r.order == [])
    decreases |order|
  {
    if order != [] {
      var a := Pop(bags, order, Choice(picks, k));
      if !a.missing && a.template.None? {
        RotateOrder(a.bags, a.order, picks, k + 1);
        var r := Rotate(a.bags, a.order, picks, k + 1);
        assert order[..|order| - 1][..|r.order|] == order[..|r.order|];
      }
    }
  }

  /** Rotation keeps every user's bag key and leaves the bags of users it
      never popped as they were. */
  lemma {:induction false} RotateBags(bags: map<nat, seq<string>>, order: seq<nat>, picks: seq<nat>, k: nat)
    ensures var r := Rotate(bags, order, picks, k);
      && r.bags.Keys == bags.Keys
      && (forall u :: u in bags && u !in order ==> r.bags[u] == bags[u])
    decreases |order|
  {
    if order != [] {
      var id := order[|order| - 1];
      var a := Pop(bags, order, Choice(picks, k));
      if !a.missing && a.template.None? {
        RotateBags(a.bags, a.order, picks, k + 1);
        var r := Rotate(a.bags, a.order, picks, k + 1);
        forall u | u in bags && u !in order
          ensures r.bags[u] == bags[u]
        {
          assert u != id && u !in a.order by {
            assert a.order == order[..|order| - 1];
          }
        }
      }
    }
  }

  /** One attempt never adds a link to a bag. */
  lemma PopShrinks(bags: map<nat, seq<string>>, order: seq<nat>, pick: nat, u: nat)
    requires order != [] && u in bags
    ensures u in Pop(bags, order, pick).bags
    ensures multiset(Pop(bags, order, pick).bags[u]) <= multiset(bags[u])
  {
  }

  /** Rotation never adds a link to a bag. */
  lemma {:induction false} RotateShrinks(bags: map<nat, seq<string>>, order: seq<nat>, picks: seq<nat>, k: nat, u: nat)
    requires u in bags
    ensures var r := Rotate(bags, order, picks, k);
      u in r.bags && multiset(r.bags[u]) <= multiset(bags[u])
    decreases |order|
  {
    if order != [] {
      var a := Pop(bags, order, Choice(picks, k));
      PopShrinks(bags, order, Choice(picks, k), u);
      if !a.missing && a.template.None? {
        RotateShrinks(a.bags, a.order, picks, k + 1, u);
      }
    }
  }

  /** A found template starts with `http` and came from the bag of a user
      in the order, leaving that bag one copy lighter. */
  lemma {:induction false} RotateFound(bags: map<nat, seq<string>>, order: seq<nat>, picks: seq<nat>, k: nat)
    requires Rotate(bags, order, picks, k).Found?
    ensures var r := Rotate(bags, order, picks, k);
      && StartsWith(r.template, "http")
      && r.from in order && r.from in bags && r.from in r.bags
      && multiset(r.bags[r.from]) + multiset{r.template} <= multiset(bags[r.from])
    decreases |order|
  {
    var a := Pop(bags, order, Choice(picks, k));
    var id := order[|order| - 1];
    if a.template.None? {
      RotateFound(a.bags, a.order, picks, k + 1);
      var r := Rotate(a.bags, a.order, picks, k + 1);
      assert r.from in order by {
        assert a.order == order[..|order| - 1];
      }
      PopShrinks(bags, order, Choice(picks, k), r.from);
    }
  }

  // ---------------------------------------------------------------------
  // The round state

  /** The state of a (possibly finished or cancelled) timer task. */
  datatype Task = Task(cancelled: bool, done: bool)

  /** What is pinned: the embed the rotation sent, or a message pinned by
      link. */
  datatype Pinned = Drawn(template: string, from: nat) | Linked(message: nat)

  /** The roles `has_any_role` and `meme_off_unpin` let through. */
  predicate IsModerator(roles: seq<string>)
  {
    "Discord-Senpai" in roles || "Subreddit-Senpai" in roles
  }

  /** The bag a user has, empty when the user has none yet. */
  function BagOf(bags: map<nat, seq<string>>, user: nat): seq<string>
  {
    if user in bags then bags[user] else []
  }

  const AlreadyRunning := "There is already a timer running. Cancel it with `.meme-off cancel` first"
  const NoValidUnit := "No valid time unit the only available units are:\nhour, minute, second"
  const Submitted := "template successfully submitted"
  const NotALink := "please provide a link"
  const NothingAttached := "You need to attach a file to your message or provide a link"
  const TemplatePinnedFirst := "A template is currently pinned remove it before getting a new one"
  const NoneSubmitted := "No templates submitted"
  const NoneLeft := "no templates left"
  const AlreadyPinned := "There already is a template pinned!"
  const NothingPinned := "There is no template pinned right now"
  const Unpinned := "template unpinned"
  const NotAllowed := "Only a moderator or the user who pinned the template can unpin it"

  /** The description of the embed the rotation sends. */
  function TemplateAnnouncement(from: nat): string
  {
    "Template for this round from <@" + ShowNat(from) + "> is"
  }

  /** The `MemeOff` cog together with the attributes it keeps on the bot:
      the timer task and its deadline (in seconds), the submissions by
      user id, the rotation order, and the pinned template with who pinned
      it. */
  class MemeOff {
    var timer: Option<Task>
    var deadline: Option<int>
    var submitted: map<nat, TemplateSubmission>
    var templateOrder: seq<nat>
    var pinned: Option<Pinned>
    var pinnedBy: Option<nat>

    /** Each submission is stored under its own user's id (so no two ids
        share one), and a pin always has its pinner. */
    ghost predicate Valid()
      reads this
    {
      && (forall u :: u in submitted ==> submitted[u].userId == u)
      && (pinned.Some? <==> pinnedBy.Some?)
    }

    /** The links each user has submitted and not yet drawn. */
    function Bags(): map<nat, seq<string>>
      reads this`submitted, submitted.Values
    {
      map u | u in submitted :: submitted[u].templates
    }

    /** A fresh cog on a bot that has none of the attributes yet. */
    constructor ()
      ensures Valid() && Bags() == map[] && templateOrder == []
      ensures timer == None && deadline == None && pinned == None && pinnedBy == None
    {
      timer := None;
      deadline := None;
      submitted := map[];
      templateOrder := [];
      pinned := None;
      pinnedBy := None;
    }

    /** `meme_off_start` at time `now`: refused while a timer is running
        (anything but a task both cancelled and done), otherwise the
        duration is parsed and a timer for that many seconds starts, its
        deadline `delay` seconds from now. `None` is an exception. */
    method Start(text: string, now: int) returns (reply: Option<string>)
      modifies this`timer, this`deadline
      ensures old(timer).Some? && !(old(timer).value.cancelled && old(timer).value.done) ==>
        reply == Some(AlreadyRunning) && timer == old(timer) && deadline == old(deadline)
      ensures !(old(timer).Some? && !(old(timer).value.cancelled && old(timer).value.done)) ==>
        match ParseDuration(text)
        case Ok(d) =>
          && reply == Some("Timer set to " + d.amount + " " + d.unit + "(s)")
          && timer == Some(Task(false, false)) && deadline == Some(now + d.delay)
        case Err(e) =>
          && reply == (if e == UnknownUnit then Some(NoValidUnit) else None)
          && timer == old(timer) && deadline == old(deadline)
    {
      if timer.Some? && !(timer.value.cancelled && timer.value.done) {
        return Some(AlreadyRunning);
      }
      var parsed := ParseDuration(text);
      match parsed
      case Err(e) =>
        reply := if e == UnknownUnit then Some(NoValidUnit) else None;
      case Ok(d) =>
        reply := Some("Timer set to " + d.amount + " " + d.unit + "(s)");
        timer := Some(Task(false, false));
        deadline := Some(now + d.delay);
    }

    /** `meme_off_deadline` at time `now` */
    function DeadlineReply(now: int): (r: string)
      reads this
      ensures deadline.None? ==> r == "No timer set currently"
      ensures deadline.Some? && deadline.value <= now ==>
        (r == "left" <==> deadline.value == now)
    {
      if deadline.None? then "No timer set currently"
      else
        DeadlineLeftOnly(deadline.value - now);
        DeadlineText(deadline.value - now)
    }

    /** `meme_off_cancel`: with no timer, `None.cancel()` raises and nothing
        changes; otherwise the timer and its deadline are dropped and the
        pin stays. */
    method Cancel() returns (reply: Option<string>)
      modifies this`timer, this`deadline
      ensures old(timer).None? ==> reply == None && deadline == old(deadline) && timer == None
      ensures old(timer).Some? ==> reply == Some("Timer was cancelled") && timer == None && deadline == None
    {
      if timer.None? {
        return None;
      }
      timer := None;
      deadline := None;
      reply := Some("Timer was cancelled");
    }

    /** The end of `timer`: the round is over, and the pin, the pinner, the
        timer and the deadline are all cleared. */
    method FinishRound() returns (reply: string)
      requires Valid()
      modifies this`timer, this`deadline, this`pinned, this`pinnedBy
      ensures Valid()
      ensures timer == None && deadline == None && pinned == None && pinnedBy == None
      ensures reply == "Round has finished now."
    {
      reply := "Round has finished now.";
      pinned := None;
      pinnedBy := None;
      timer := None;
      deadline := None;
    }

    /** Stores `link` in the author's submission, creating the submission
        when the author has none. */
    method AddTo(author: nat, link: string)
      requires Valid()
      modifies this`submitted, submitted.Values
      ensures Valid()
      ensures Bags() == old(Bags())[author := BagOf(old(Bags()), author) + [link]]
    {
      var sub: TemplateSubmission;
      if author in submitted {
        sub := submitted[author];
      } else {
        sub := new TemplateSubmission(author);
      }
      sub.AddTemplate(link);
      submitted := submitted[author := sub];
    }

    /** `meme_off_submit`: an attachment is taken as it is; otherwise a
        non-empty link must start with `http`. Exactly one link is appended
        to the author's bag, or nothing changes. */
    method Submit(author: nat, attachments: seq<string>, link: Option<string>) returns (reply: string)
      requires Valid()
      modifies this`submitted, submitted.Values
      ensures Valid()
      ensures |attachments| > 0 ==>
        reply == Submitted && Bags() == old(Bags())[author := BagOf(old(Bags()), author) + [attachments[0]]]
      ensures attachments == [] && link.Some? && link.value != [] && StartsWith(link.value, "http") ==>
        reply == Submitted && Bags() == old(Bags())[author := BagOf(old(Bags()), author) + [link.value]]
      ensures attachments == [] && link.Some? && link.value != [] && !StartsWith(link.value, "http") ==>
        reply == NotALink && Bags() == old(Bags())
      ensures attachments == [] && (link.None? || link.value == []) ==>
        reply == NothingAttached && Bags() == old(Bags())
    {
      if |attachments| > 0 {
        AddTo(author, attachments[0]);
        reply := Submitted;
      } else if link.Some? && link.value != [] {
        if !StartsWith(link.value, "http") {
          return NotALink;
        }
        AddTo(author, link.value);
        reply := Submitted;
      } else {
        reply := NothingAttached;
      }
    }

    /** `meme_off_templates_reset`, behind its role check (`None` when
        the check refuses). The rotation order is left as it was. */
    method DeleteTemplates(roles: seq<string>) returns (reply: Option<string>)
      requires Valid()
      modifies this`submitted
      ensures Valid()
      ensures IsModerator(roles) ==> reply == Some("all templates removed") && Bags() == map[]
      ensures !IsModerator(roles) ==> reply == None && submitted == old(submitted)
    {
      if !IsModerator(roles) {
        return None;
      }
      submitted := map[];
      reply := Some("all templates removed");
    }

    /** One `pop()` and `get_template()` of the selection loop. */
    method PopOne(pick: nat) returns (missing: bool, template: Option<string>, from: nat)
      requires Valid() && templateOrder != []
      modifies this`templateOrder, submitted.Values
      ensures Valid()
      ensures Attempt(missing, template, from, Bags(), templateOrder)
           == Pop(old(Bags()), old(templateOrder), pick)
    {
      ghost var bags := Bags();
      from := templateOrder[|templateOrder| - 1];
      templateOrder := templateOrder[..|templateOrder| - 1];
      if from !in submitted {
        return true, None, from;
      }
      missing := false;
      var submission := submitted[from];
      template := submission.GetTemplate(pick);
      if template.Some? && !StartsWith(template.value, "http") {
        template := None;
      }
      assert Bags() == bags[from := submission.templates];
    }

    /** The state and answer a rotation leaves: the bags and the order it
        computed, and the drawn template pinned for the author, or no pin
        with `no templates left` or an exception (`None`). */
    ghost predicate Settled(r: Rotation, author: nat, reply: Option<string>)
      reads this, submitted.Values
    {
      && Bags() == r.bags && templateOrder == r.order
      && (r.Found? ==> reply == Some(TemplateAnnouncement(r.from))
                       && pinned == Some(Drawn(r.template, r.from)) && pinnedBy == Some(author))
      && (r.Exhausted? ==> reply == Some(NoneLeft) && pinned == None && pinnedBy == None)
      && (r.Missing? ==> reply == None && pinned == None && pinnedBy == None)
    }

    /** The selection loop of `meme_off_template` on a non-empty order:
        the first `pop()` and then one more for as long as nothing usable
        came out and ids are left. */
    method Select(picks: seq<nat>) returns (missing: bool, template: Option<string>, from: nat)
      requires Valid() && templateOrder != []
      modifies this`templateOrder, submitted.Values
      ensures Valid()
      ensures var r := Rotate(old(Bags()), old(templateOrder), picks, 0);
        && (missing ==> r == Missing(Bags(), templateOrder))
        && (!missing && template.None? ==> r == Exhausted(Bags(), templateOrder))
        && (!missing && template.Some? ==> r == Found(template.value, from, Bags(), templateOrder))
    {
      ghost var goal := Rotate(Bags(), templateOrder, picks, 0);
      missing, template, from := PopOne(Choice(picks, 0));
      var k := 1;
      while !missing && template.None? && templateOrder != []
        invariant Valid()
        invariant missing ==> goal == Missing(Bags(), templateOrder)
        invariant !missing && template.None? ==> goal == Rotate(Bags(), templateOrder, picks, k)
        invariant !missing && template.Some? ==> goal == Found(template.value, from, Bags(), templateOrder)
        decreases |templateOrder|
      {
        missing, template, from := PopOne(Choice(picks, k));
        k := k + 1;
      }
    }

    /** The selection loop followed by the pin of what it found. */
    method Rotation(author: nat, picks: seq<nat>) returns (reply: Option<string>)
      requires Valid() && templateOrder != [] && pinned == None
      modifies this`templateOrder, this`pinned, this`pinnedBy, submitted.Values
      ensures Valid()
      ensures Settled(Rotate(old(Bags()), old(templateOrder), picks, 0), author, reply)
    {
      var missing, template, from := Select(picks);
      if missing {
        reply := None;
      } else if template.None? {
        reply := Some(NoneLeft);
      } else {
        pinned := Some(Drawn(template.value, from));
        pinnedBy := Some(author);
        reply := Some(TemplateAnnouncement(from));
      }
    }

    /** `meme_off_template`: refused while something is pinned; the order
        is rebuilt from the submitters (in the `shuffled` order
        `random.shuffle` gives) only when it is empty; then ids are popped
        until a usable template turns up, which is pinned for the author. */
    method Template(author: nat, shuffled: seq<nat>, picks: seq<nat>) returns (reply: Option<string>)
      requires Valid() && multiset(shuffled) == multiset(submitted.Keys)
      modifies this`templateOrder, this`pinned, this`pinnedBy, submitted.Values
      ensures Valid()
      ensures old(pinned).Some? ==>
        reply == Some(TemplatePinnedFirst) && Bags() == old(Bags())
        && templateOrder == old(templateOrder) && pinned == old(pinned) && pinnedBy == old(pinnedBy)
      ensures old(pinned).None? && old(templateOrder) == [] && old(submitted) == map[] ==>
        reply == Some(NoneSubmitted) && Bags() == old(Bags())
        && templateOrder == old(templateOrder) && pinned == old(pinned) && pinnedBy == old(pinnedBy)
      ensures old(pinned).None? && !(old(templateOrder) == [] && old(submitted) == map[]) ==>
        Settled(Rotate(old(Bags()), if old(templateOrder) == [] then shuffled else old(templateOrder), picks, 0),
                author, reply)
    {
      if pinned.Some? {
        return Some(TemplatePinnedFirst);
      }
      if templateOrder == [] {
        if submitted == map[] {
          return Some(NoneSubmitted);
        }
        assert submitted.Keys != {};
        templateOrder := shuffled;
      }
      ghost var bags, order := Bags(), templateOrder;
      reply := Rotation(author, picks);
      assert Settled(Rotate(bags, order, picks, 0), author, reply);
    }

    /** `meme_off_pin`: refused while something is pinned; otherwise the
        message is pinned for the author. */
    method Pin(author: nat, message: nat) returns (reply: Option<string>)
      requires Valid()
      modifies this`pinned, this`pinnedBy
      ensures Valid()
      ensures old(pinned).Some? ==> reply == Some(AlreadyPinned) && pinned == old(pinned) && pinnedBy == old(pinnedBy)
      ensures old(pinned).None? ==> reply == None && pinned == Some(Linked(message)) && pinnedBy == Some(author)
    {
      if pinned.Some? {
        return Some(AlreadyPinned);
      }
      pinned := Some(Linked(message));
      pinnedBy := Some(author);
      reply := None;
    }

    /** `meme_off_unpin`: the pin goes, together with its pinner, exactly
        when there is one and the author pinned it or is a moderator. */
    method Unpin(author: nat, roles: seq<string>) returns (reply: string)
      requires Valid()
      modifies this`pinned, this`pinnedBy
      ensures Valid()
      ensures old(pinned).None? ==> reply == NothingPinned && pinned == None && pinnedBy == old(pinnedBy)
      ensures old(pinned).Some? ==>
        (pinned == None <==> old(pinnedBy) == Some(author) || IsModerator(roles))
      ensures old(pinned).Some? && (old(pinnedBy) == Some(author) || IsModerator(roles)) ==>
        reply == Unpinned && pinned == None && pinnedBy == None
      ensures old(pinned).Some? && !(old(pinnedBy) == Some(author) || IsModerator(roles)) ==>
        reply == NotAllowed && pinned == old(pinned) && pinnedBy == old(pinnedBy)
    {
      if pinned.None? {
        return NothingPinned;
      }
      if pinnedBy == Some(author) || IsModerator(roles) {
        pinned := None;
        pinnedBy := None;
        reply := Unpinned;
      } else {
        reply := NotAllowed;
      }
    }
  }
}
