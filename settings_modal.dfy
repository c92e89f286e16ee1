/** The timer-settings dialog: a draft of the preferences in minutes, edited
    field by field through filtering change and blur handlers, and turned
    back into clamped seconds on submit. */
module SettingsModal {
  import opened Wrappers

  /** What a number input of the draft holds: the empty string or a number. */
  datatype Field = Blank | Num(n: int)

  /** The text an event carries: the empty string, or other text whose
      parseInt reading is a number or NaN (None). */
  datatype Typed = Empty | Text(parsed: Option<int>)

  datatype FieldName = FocusTime | ShortBreakTime | LongBreakTime | SessionsUntilLongBreak

  /** The user's preferences as the server keeps them: lengths in seconds. */
  datatype Preferences = Preferences(focusTime: int, shortBreakTime: int, longBreakTime: int,
                                     sessionsUntilLongBreak: int)

  /** tempPreferences: lengths in minutes while the dialog is open. */
  datatype Draft = Draft(focusTime: Field, shortBreakTime: Field, longBreakTime: Field,
                         sessionsUntilLongBreak: Field)

  function Get(d: Draft, f: FieldName): Field
  {
    match f
    case FocusTime => d.focusTime
    case ShortBreakTime => d.shortBreakTime
    case LongBreakTime => d.longBreakTime
    case SessionsUntilLongBreak => d.sessionsUntilLongBreak
  }

  /** `{ ...prev, [f]: v }`. */
  function Set(d: Draft, f: FieldName, v: Field): (r: Draft)
    ensures Get(r, f) == v
    ensures forall g :: g != f ==> Get(r, g) == Get(d, g)
  {
    match f
    case FocusTime => d.(focusTime := v)
    case ShortBreakTime => d.(shortBreakTime := v)
    case LongBreakTime => d.(longBreakTime := v)
    case SessionsUntilLongBreak => d.(sessionsUntilLongBreak := v)
  }

  /** The value a blurred empty field is reset to, and the placeholder. */
  function Default(f: FieldName): int
  {
    match f
    case FocusTime => 25
    case ShortBreakTime => 5
    case LongBreakTime => 15
    case SessionsUntilLongBreak => 4
  }

  /** The largest value the change handler accepts. */
  function ChangeLimit(f: FieldName): int
  {
    if f == SessionsUntilLongBreak then 8 else 120
  }

  function Clamp(lo: int, hi: int, x: int): int
  {
    if x < lo then lo else if x > hi then hi else x
  }

  /** One minute field on submit: an empty field takes its default, the
      number is clamped to [1, maxMinutes] and turned into seconds. The
      result is a whole number of minutes within range; a value already in
      range is kept exactly. */
  function SubmittedSeconds(f: Field, default: int, maxMinutes: int): (secs: int)
    requires 1 <= default <= maxMinutes
    ensures 60 <= secs <= maxMinutes * 60 && secs % 60 == 0
    ensures f == Blank ==> secs == default * 60
    ensures f.Num? && 1 <= f.n <= maxMinutes ==> secs == f.n * 60
    ensures f.Num? && f.n < 1 ==> secs == 60
    ensures f.Num? && f.n > maxMinutes ==> secs == maxMinutes * 60
  {
    var minutes := if f == Blank then default else f.n;
    Clamp(1, maxMinutes, minutes) * 60
  }

  /** handleSubmit's transformation: focus within 1..120 minutes, short
      break within 1..30, long break within 1..60, all in seconds; the
      session count is only defaulted (4 when empty), never clamped. */
  function Submitted(d: Draft): (p: Preferences)
    ensures 60 <= p.focusTime <= 7200 && p.focusTime % 60 == 0
    ensures 60 <= p.shortBreakTime <= 1800 && p.shortBreakTime % 60 == 0
    ensures 60 <= p.longBreakTime <= 3600 && p.longBreakTime % 60 == 0
    ensures d.sessionsUntilLongBreak == Blank ==> p.sessionsUntilLongBreak == 4
    ensures d.sessionsUntilLongBreak.Num? ==> p.sessionsUntilLongBreak == d.sessionsUntilLongBreak.n
  {
    Preferences(SubmittedSeconds(d.focusTime, 25, 120),
                SubmittedSeconds(d.shortBreakTime, 5, 30),
                SubmittedSeconds(d.longBreakTime, 15, 60),
                if d.sessionsUntilLongBreak == Blank then 4 else d.sessionsUntilLongBreak.n)
  }

  /** openModal (and the initial draft): seconds back to whole minutes,
      rounded down. */
  function Opened(p: Preferences): (d: Draft)
    ensures d.focusTime.Num? && d.focusTime.n * 60 <= p.focusTime < (d.focusTime.n + 1) * 60
    ensures d.shortBreakTime.Num? && d.shortBreakTime.n * 60 <= p.shortBreakTime < (d.shortBreakTime.n + 1) * 60
    ensures d.longBreakTime.Num? && d.longBreakTime.n * 60 <= p.longBreakTime < (d.longBreakTime.n + 1) * 60
    ensures d.sessionsUntilLongBreak == Num(p.sessionsUntilLongBreak)
  {
    Draft(Num(p.focusTime / 60), Num(p.shortBreakTime / 60), Num(p.longBreakTime / 60),
          Num(p.sessionsUntilLongBreak))
  }

  /** Submitting and reopening shows the submitted minutes: a draft whose
      fields are all in range comes back unchanged, and submitting the
      reopened draft sends the same preferences again. */
  lemma SubmitThenOpen(d: Draft)
    ensures Submitted(Opened(Submitted(d))) == Submitted(d)
    ensures d.focusTime.Num? && 1 <= d.focusTime.n <= 120
         && d.shortBreakTime.Num? && 1 <= d.shortBreakTime.n <= 30
         && d.longBreakTime.Num? && 1 <= d.longBreakTime.n <= 60
         && d.sessionsUntilLongBreak.Num?
         ==> Opened(Submitted(d)) == d
  {
    var p := Submitted(d);
    assert p.focusTime / 60 * 60 == p.focusTime;
    assert p.shortBreakTime / 60 * 60 == p.shortBreakTime;
    assert p.longBreakTime / 60 * 60 == p.longBreakTime;
  }

  /** The onChange filter: an emptied field becomes empty; a number within
      [1, ChangeLimit] is stored; anything else (out of range, NaN) leaves
      the draft as it was. Other fields are never touched. */
  function Changed(d: Draft, f: FieldName, v: Typed): (r: Draft)
    ensures forall g :: g != f ==> Get(r, g) == Get(d, g)
    ensures v == Empty ==> Get(r, f) == Blank
    ensures v.Text? && v.parsed.Some? && 1 <= v.parsed.value <= ChangeLimit(f) ==> Get(r, f) == Num(v.parsed.value)
    ensures v.Text? && !(v.parsed.Some? && 1 <= v.parsed.value <= ChangeLimit(f)) ==> r == d
  {
    match v
    case Empty => Set(d, f, Blank)
    case Text(parsed) =>
      if parsed.Some? && 1 <= parsed.value <= ChangeLimit(f) then Set(d, f, Num(parsed.value)) else d
  }

  /** The onBlur reset: a field left empty, or holding a number below 1, is
      set to its default; otherwise (including NaN) nothing changes. */
  function Blurred(d: Draft, f: FieldName, v: Typed): (r: Draft)
    ensures forall g :: g != f ==> Get(r, g) == Get(d, g)
    ensures (v == Empty || (v.parsed.Some? && v.parsed.value < 1)) ==> Get(r, f) == Num(Default(f))
    ensures !(v == Empty || (v.parsed.Some? && v.parsed.value < 1)) ==> r == d
  {
    if v == Empty || (v.parsed.Some? && v.parsed.value < 1) then Set(d, f, Num(Default(f))) else d
  }

  /** A value the change handler would store for the field. */
  predicate Accepted(f: FieldName, v: Field)
  {
    v.Num? && 1 <= v.n <= ChangeLimit(f)
  }

  /** The text a controlled input of the draft carries in its events once
      React has rendered it: the empty string for a blank field, and the
      number's digits, which parseInt reads back, otherwise. */
  function Shown(v: Field): (t: Typed)
    ensures t == Empty <==> v == Blank
    ensures v.Num? ==> t == Text(Some(v.n))
  {
    match v
    case Blank => Empty
    case Num(n) => Text(Some(n))
  }

  /** Typing a text and leaving the field. The change handler filters what
      was typed; a rejected text is replaced by the draft's value when the
      controlled input is rendered again, so the blur handler reads the
      field as the draft now holds it. Afterwards the field holds a number
      of at least 1: what was typed when the change handler accepted it,
      the default when the field was emptied or the kept value was blank
      or below 1, or else the value it had before; the other fields are
      untouched. */
  lemma ChangeThenBlur(d: Draft, f: FieldName, v: Typed)
    ensures var c := Changed(d, f, v);
      var r := Get(Blurred(c, f, Shown(Get(c, f))), f);
      && r.Num? && r.n >= 1
      && (Accepted(f, r) || r == Get(d, f))
      && (v == Empty ==> r == Num(Default(f)))
      && (v.Text? && v.parsed.Some? && 1 <= v.parsed.value <= ChangeLimit(f) ==> r == Num(v.parsed.value))
    ensures var c := Changed(d, f, v);
      forall g :: g != f ==> Get(Blurred(c, f, Shown(Get(c, f))), g) == Get(d, g)
  {
  }

  class Modal {
    var tempPreferences: Draft

    /** The draft starts from the preferences passed in. */
    constructor (userPreferences: Preferences)
      ensures tempPreferences == Opened(userPreferences)
    {
      tempPreferences := Opened(userPreferences);
    }

    /** openModal, run whenever the dialog opens or the preferences change. */
    method OpenModal(userPreferences: Preferences)
      modifies this
      ensures tempPreferences == Opened(userPreferences)
    {
      tempPreferences := Draft(Num(userPreferences.focusTime / 60),
                               Num(userPreferences.shortBreakTime / 60),
                               Num(userPreferences.longBreakTime / 60),
                               Num(userPreferences.sessionsUntilLongBreak));
    }

    /** A field's onChange handler. */
    method Change(f: FieldName, v: Typed)
      modifies this
      ensures tempPreferences == Changed(old(tempPreferences), f, v)
    {
      match v
      case Empty =>
        tempPreferences := Set(tempPreferences, f, Blank);
      case Text(parsed) =>
        if parsed.Some? && 1 <= parsed.value <= ChangeLimit(f) {
          tempPreferences := Set(tempPreferences, f, Num(parsed.value));
        }
    }

    /** A field's onBlur handler, reading the value the controlled input
        shows for the draft. */
    method Blur(f: FieldName)
      modifies this
      ensures tempPreferences == Blurred(old(tempPreferences), f, Shown(Get(old(tempPreferences), f)))
    {
      var v := Shown(Get(tempPreferences, f));
      if v == Empty || (v.parsed.Some? && v.parsed.value < 1) {
        tempPreferences := Set(tempPreferences, f, Num(Default(f)));
      }
    }

    /** handleSubmit up to the request: without a stored token nothing is
        sent; with one, the transformed preferences are. */
    method Submit(hasToken: bool) returns (sent: Option<Preferences>)
      ensures !hasToken ==> sent == None
      ensures hasToken ==> sent == Some(Submitted(tempPreferences))
    {
      if !hasToken {
        return None;
      }
      var focusTime := if tempPreferences.focusTime == Blank then 25 else tempPreferences.focusTime.n;
      var shortBreakTime := if tempPreferences.shortBreakTime == Blank then 5 else tempPreferences.shortBreakTime.n;
      var longBreakTime := if tempPreferences.longBreakTime == Blank then 15 else tempPreferences.longBreakTime.n;
      var sessions := if tempPreferences.sessionsUntilLongBreak == Blank then 4 else tempPreferences.sessionsUntilLongBreak.n;
      sent := Some(Preferences(Clamp(1, 120, focusTime) * 60, Clamp(1, 30, shortBreakTime) * 60,
                               Clamp(1, 60, longBreakTime) * 60, sessions));
    }
  }
}
