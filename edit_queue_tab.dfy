/** The queue editor of internal/tui/edit_queue_tab.go: a form of five text
    fields and two buttons, the chain of checks run when Save is pressed, and
    the focus movement between fields. strconv.Atoi and time.Parse("15:04")
    are passed in as parse functions; Decimal.ParseDecimal and ParseClock are
    the concrete parsers used to state what the pre-filled form re-submits. */
module EditQueue {
  import opened Common
  import opened Decimal

  /** models.QueueInfo as the editor reads and submits it. */
  datatype QueueInfo = QueueInfo(
    name: string,
    targetDirectory: string,
    maxParallel: int,
    speedLimit: int,
    startTime: Clock,
    endTime: Clock)

  /** The text held by the five inputs. */
  datatype Form = Form(targetDir: string, maxParallel: string, speedLimit: string, startTime: string, endTime: string)

  /** Pressing Save either leaves a footer message or yields the update to submit. */
  datatype Verdict = Rejected(message: string) | Accepted(info: QueueInfo)

  const MaxParallelNotNumber := "Max parallel downloads must be a number."
  const MaxParallelNotPositive := "Max parallel downloads must be greater than 0."
  const SpeedNotNumber := "Speed limit must be a number."
  const SpeedNegative := "Speed limit must be greater than or equal to 0."
  const BadStartTime := "Invalid start time."
  const BadEndTime := "Invalid end time."
  const UpdatedMessage := "Queue updated successfully."

  /** The focus positions, in the order of the EditQueueField constants. */
  const TargetDirectoryField := 0
  const EndTimeField := 4
  const ConfirmField := 5
  const CancelField := 6

  predicate ValidClock(c: Clock) { 0 <= c.hour <= 23 && 0 <= c.minute <= 59 }

  /** Two digits with a leading zero, as layout "15:04" prints hours and minutes. */
  function Pad2(n: int): (s: string)
    requires 0 <= n < 100
    ensures |s| == 2 && IsDigit(s[0]) && IsDigit(s[1])
    ensures 10 * DigitValue(s[0]) + DigitValue(s[1]) == n
  {
    [DigitChar(n / 10), DigitChar(n % 10)]
  }

  /** time.Time.Format("15:04"). */
  function ClockText(c: Clock): (text: string)
    requires ValidClock(c)
  {
    Pad2(c.hour) + ":" + Pad2(c.minute)
  }

  /** The two-digit form of time.Parse("15:04"): hours 00-23, a colon,
      minutes 00-59. */
  function ParseClock(s: string): (r: Option<Clock>)
  {
    if |s| == 5 && IsDigit(s[0]) && IsDigit(s[1]) && s[2] == ':' && IsDigit(s[3]) && IsDigit(s[4]) then
      var hour := 10 * DigitValue(s[0]) + DigitValue(s[1]);
      var minute := 10 * DigitValue(s[3]) + DigitValue(s[4]);
      if hour <= 23 && minute <= 59 then Some(Clock(hour, minute)) else None
    else None
  }

  /** Formatting a clock and parsing it back gives the same clock. */
  lemma ClockRoundTrip(c: Clock)
    requires ValidClock(c)
    ensures ParseClock(ClockText(c)) == Some(c)
  {
    var s := ClockText(c);
    assert s[0..2] == Pad2(c.hour) && s[3..5] == Pad2(c.minute);
  }

  /** The confirm branch of Update: the checks in their fixed order, the first
      failure giving its message, and otherwise the update for this queue with
      the parsed values. */
  function Validate(queueName: string, form: Form, parseInt: string -> Option<int>, parseClock: string -> Option<Clock>): (v: Verdict)
    ensures v.Accepted? <==>
      && parseInt(form.maxParallel).Some? && parseInt(form.maxParallel).value >= 1
      && parseInt(form.speedLimit).Some? && parseInt(form.speedLimit).value >= 0
      && parseClock(form.startTime).Some? && parseClock(form.endTime).Some?
    ensures v.Accepted? ==> v.info == QueueInfo(queueName, form.targetDir,
      parseInt(form.maxParallel).value, parseInt(form.speedLimit).value,
      parseClock(form.startTime).value, parseClock(form.endTime).value)
  {
    match parseInt(form.maxParallel)
    case None => Rejected(MaxParallelNotNumber)
    case Some(mp) =>
      if mp < 1 then Rejected(MaxParallelNotPositive)
      else match parseInt(form.speedLimit)
      case None => Rejected(SpeedNotNumber)
      case Some(sp) =>
        if sp < 0 then Rejected(SpeedNegative)
        else match parseClock(form.startTime)
        case None => Rejected(BadStartTime)
        case Some(st) =>
          match parseClock(form.endTime)
          case None => Rejected(BadEndTime)
          case Some(et) => Accepted(QueueInfo(queueName, form.targetDir, mp, sp, st, et))
  }

  /** One check of the chain: whether it passes, and its message when it does not. */
  datatype Check = Check(passes: bool, message: string)

  /** The checks as a list, each stated on its own; a later check is only
      consulted once the earlier ones pass. */
  function Checks(form: Form, parseInt: string -> Option<int>, parseClock: string -> Option<Clock>): (cs: seq<Check>)
  {
    var mp := parseInt(form.maxParallel);
    var sp := parseInt(form.speedLimit);
    [ Check(mp.Some?, MaxParallelNotNumber),
      Check(mp.None? || mp.value >= 1, MaxParallelNotPositive),
      Check(sp.Some?, SpeedNotNumber),
      Check(sp.None? || sp.value >= 0, SpeedNegative),
      Check(parseClock(form.startTime).Some?, BadStartTime),
      Check(parseClock(form.endTime).Some?, BadEndTime) ]
  }

  /** The message of the first failing check, if any. */
  function FirstFailure(checks: seq<Check>): (message: Option<string>)
  {
    if checks == [] then None
    else if !checks[0].passes then Some(checks[0].message)
    else FirstFailure(checks[1..])
  }

  /** Validate is the first-failure-wins reading of the check list: it
      rejects with exactly the first failing check's message, and accepts
      exactly when every check passes. */
  lemma ValidateIsFirstFailure(queueName: string, form: Form, parseInt: string -> Option<int>, parseClock: string -> Option<Clock>)
    ensures var v := Validate(queueName, form, parseInt, parseClock);
      var first := FirstFailure(Checks(form, parseInt, parseClock));
      && (v.Rejected? <==> first.Some?)
      && (v.Rejected? ==> first.value == v.message)
      && (v.Accepted? <==> forall c :: c in Checks(form, parseInt, parseClock) ==> c.passes)
  {
    var cs := Checks(form, parseInt, parseClock);
    assert FirstFailure(cs[6..]) == None;
    assert FirstFailure(cs[5..]) == if cs[5].passes then None else Some(cs[5].message);
    assert FirstFailure(cs[4..]) == if cs[4].passes then FirstFailure(cs[5..]) else Some(cs[4].message);
    assert FirstFailure(cs[3..]) == if cs[3].passes then FirstFailure(cs[4..]) else Some(cs[3].message);
    assert FirstFailure(cs[2..]) == if cs[2].passes then FirstFailure(cs[3..]) else Some(cs[2].message);
    assert FirstFailure(cs[1..]) == if cs[1].passes then FirstFailure(cs[2..]) else Some(cs[1].message);
  }

  /** The form the editor opens with for a queue. */
  function Prefill(info: QueueInfo): (form: Form)
    requires ValidClock(info.startTime) && ValidClock(info.endTime)
  {
    Form(info.targetDirectory, Itoa(info.maxParallel), Itoa(info.speedLimit),
         ClockText(info.startTime), ClockText(info.endTime))
  }

  /** Pressing Save on the unedited form of a valid queue submits that queue's
      own settings unchanged. */
  lemma UneditedConfirmResubmits(info: QueueInfo)
    requires ValidClock(info.startTime) && ValidClock(info.endTime)
    requires info.maxParallel >= 1 && info.speedLimit >= 0
    ensures Validate(info.name, Prefill(info), ParseDecimal, ParseClock) == Accepted(info)
  {
    ItoaRoundTrip(info.maxParallel);
    ItoaRoundTrip(info.speedLimit);
    ClockRoundTrip(info.startTime);
    ClockRoundTrip(info.endTime);
  }

  predicate CancelKey(key: string) { key == "ctrl+c" || key == "esc" }

  /** Where a key that neither submits nor closes moves the focus. From an
      input field tab/down go forward (capped at 7 as written) and up/shift+tab
      go back (never below 0); the two buttons have their own moves. */
  function Navigate(focus: int, key: string): (next: int)
    requires 0 <= focus <= CancelField
    ensures 0 <= next <= CancelField
    ensures focus <= EndTimeField && (key == "tab" || key == "down") ==> next == focus + 1
    ensures focus <= EndTimeField && (key == "up" || key == "shift+tab") ==> next == Max(focus - 1, 0)
  {
    if focus <= EndTimeField then
      if key == "tab" || key == "down" then Min(focus + 1, 7)
      else if key == "up" || key == "shift+tab" then Max(focus - 1, 0)
      else focus
    else if focus == ConfirmField then
      if key == "up" || key == "shift+tab" then Max(focus - 1, 0)
      else if key == "down" then ConfirmField
      else if key == "tab" || key == "right" then CancelField
      else focus
    else
      if key == "up" then EndTimeField
      else if key == "left" || key == "shift+tab" then ConfirmField
      else focus
  }

  class EditQueueTab {
    const queueName: string
    var focusIndex: int
    var targetDir: string
    var maxParallel: string
    var speedLimit: string
    var startTime: string
    var endTime: string
    var footerMessage: string

    ghost predicate Valid()
      reads this
    {
      0 <= focusIndex <= CancelField
    }

    function Contents(): (form: Form)
      reads this
    {
      Form(targetDir, maxParallel, speedLimit, startTime, endTime)
    }

    /** NewEditQueueTab: the inputs hold the queue's current settings. */
    constructor (info: QueueInfo)
      requires ValidClock(info.startTime) && ValidClock(info.endTime)
      ensures Valid() && queueName == info.name
      ensures Contents() == Prefill(info) && focusIndex == TargetDirectoryField && footerMessage == ""
    {
      queueName := info.name;
      focusIndex := TargetDirectoryField;
      targetDir := info.targetDirectory;
      maxParallel := Itoa(info.maxParallel);
      speedLimit := Itoa(info.speedLimit);
      startTime := ClockText(info.startTime);
      endTime := ClockText(info.endTime);
      footerMessage := "";
    }

    /** resetForm: all inputs emptied, focus back on the first field, no footer. */
    method ResetForm()
      modifies this
      ensures Valid()
      ensures Contents() == Form("", "", "", "", "") && focusIndex == TargetDirectoryField && footerMessage == ""
    {
      targetDir, maxParallel, speedLimit, startTime, endTime := "", "", "", "", "";
      focusIndex := TargetDirectoryField;
      footerMessage := "";
    }

    /** Update for one key press. parseInt and parseClock stand for
        strconv.Atoi and time.Parse("15:04"); updateError is what the
        manager's UpdateQueue answers. The out-parameters are the update
        submitted to the manager, if any, and whether the tab asks to close.
        Keys the text inputs consume leave the text as it was here. */
    method HandleKey(key: string, parseInt: string -> Option<int>, parseClock: string -> Option<Clock>,
                     updateError: Option<string>)
      returns (submitted: Option<QueueInfo>, close: bool)
      requires Valid()
      modifies this
      ensures Valid()
      ensures CancelKey(key) || (old(focusIndex) == CancelField && key == "enter") ==>
        && submitted.None? && close
        && Contents() == Form("", "", "", "", "") && focusIndex == TargetDirectoryField && footerMessage == ""
      ensures !CancelKey(key) && old(focusIndex) == ConfirmField && key == "enter" ==>
        && focusIndex == old(focusIndex) && Contents() == old(Contents())
        && match Validate(queueName, old(Contents()), parseInt, parseClock)
           case Rejected(message) =>
             submitted.None? && !close && footerMessage == message
           case Accepted(info) =>
             && submitted == Some(info)
             && (updateError.Some? ==> !close && footerMessage == updateError.value)
             && (updateError.None? ==> close && footerMessage == UpdatedMessage)
      ensures !CancelKey(key) && !(key == "enter" && old(focusIndex) >= ConfirmField) ==>
        && submitted.None? && !close
        && focusIndex == Navigate(old(focusIndex), key)
        && Contents() == old(Contents()) && footerMessage == old(footerMessage)
    {
      submitted, close := None, false;
      if CancelKey(key) || (focusIndex == CancelField && key == "enter") {
        ResetForm();
        close := true;
      } else if focusIndex == ConfirmField && key == "enter" {
        match Validate(queueName, Contents(), parseInt, parseClock)
        case Rejected(message) =>
          footerMessage := message;
        case Accepted(info) =>
          submitted := Some(info);
          if updateError.Some? {
            footerMessage := updateError.value;
          } else {
            footerMessage := UpdatedMessage;
            close := true;
          }
      } else {
        focusIndex := Navigate(focusIndex, key);
      }
    }
  }
}
