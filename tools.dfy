/**
 * The Tools page: the keypad calculator (display and the last evaluated
 * expression) and the reminder list. The handlers replace whole state cells;
 * the new values are the pure functions below.
 */
module Tools {
  import opened Text
  import opened Lists

  /* ----- Calculator ----- */

  predicate IsDigit(c: char) {
    '0' <= c <= '9'
  }

  /** Digits with at most one decimal point and at least one digit: `12`, `1.5`, `.5`, `5.`. */
  predicate UnsignedDecimal(t: string) {
    && (forall i :: 0 <= i < |t| ==> IsDigit(t[i]) || t[i] == '.')
    && (forall i, j :: 0 <= i < j < |t| ==> !(t[i] == '.' && t[j] == '.'))
    && (exists i :: 0 <= i < |t| && IsDigit(t[i]))
  }

  /** An unsigned decimal, optionally preceded by one sign. */
  predicate DecimalLiteral(t: string) {
    UnsignedDecimal(t) || (|t| > 0 && (t[0] == '+' || t[0] == '-') && UnsignedDecimal(t[1..]))
  }

  /**
   * `!isNaN(Number(s))` for decimal text: `Number` ignores surrounding white
   * space and reads the empty string as 0.
   */
  predicate IsNumber(s: string) {
    Trim(s) == "" || DecimalLiteral(Trim(s))
  }

  /** The keypad buttons that go to the input handler, one character each (every button except `=`). */
  const KeypadKeys: string := "789÷456×123-0.+"

  /**
   * The display after a key: a number typed over the initial `0` replaces it,
   * any key typed over `Error` replaces it, and otherwise the key is appended.
   */
  function AfterKey(display: string, key: string): (r: string)
    ensures display == "0" && IsNumber(key) ==> r == key
    ensures display == "Error" ==> r == key
    ensures display != "Error" && !(display == "0" && IsNumber(key)) ==> r == display + key
  {
    if display == "0" && IsNumber(key) then key
    else if display == "Error" then key
    else display + key
  }

  /** The backspace button: `display.slice(0, -1) || "0"`. */
  function Backspaced(display: string): (r: string)
    ensures r != ""
    ensures |display| >= 2 ==> r == display[..|display| - 1]
    ensures |display| <= 1 ==> r == "0"
  {
    var s := if display == "" then "" else display[..|display| - 1];
    if s == "" then "0" else s
  }

  /** The expression handed to the evaluator: every `×` becomes `*` and every `÷` becomes `/`. */
  function Substituted(display: string): (r: string)
    ensures |r| == |display|
    ensures forall i :: 0 <= i < |display| ==>
      r[i] == (if display[i] == '×' then '*' else if display[i] == '÷' then '/' else display[i])
  {
    ReplaceAll(ReplaceAll(display, '×', '*'), '÷', '/')
  }

  /** What evaluating the expression did: it gave a value (already as text, `String(result)`) or threw. */
  datatype EvalResult = Value(text: string) | Throws

  type Evaluator = string -> EvalResult

  /** A one-character key other than white space is a number exactly when it is a digit. */
  lemma SingleKeyNumber(c: char)
    requires !IsSpace(c)
    ensures IsNumber([c]) == IsDigit(c)
  {
    assert TrimStart([c]) == [c];
    assert Trim([c]) == [c];
    assert [c][1..] == [];
    if IsDigit(c) {
      assert [c][0] == c;
    }
  }

  /** At the initial `0`, a keypad digit replaces the display and every other keypad key is appended. */
  lemma KeypadAtZero(c: char)
    requires c in KeypadKeys
    ensures (AfterKey("0", [c]) == [c]) == IsDigit(c)
    ensures c == '.' ==> AfterKey("0", [c]) == "0."
  {
    assert !IsSpace(c);
    SingleKeyNumber(c);
  }

  /** Backspace undoes one typed character, whatever the display was (short of `Error`). */
  lemma BackspaceUndoesKey(display: string, c: char)
    requires display != "" && display != "Error"
    ensures Backspaced(AfterKey(display, [c])) == display
  {
    if display == "0" && IsNumber([c]) {
    } else {
      assert (display + [c])[..|display|] == display;
    }
  }

  /** After substitution no `×` or `÷` is left, and substituting again changes nothing. */
  lemma SubstitutedIdempotent(display: string)
    ensures '×' !in Substituted(display) && '÷' !in Substituted(display)
    ensures Substituted(Substituted(display)) == Substituted(display)
  {
    var r := Substituted(display);
    forall i | 0 <= i < |r| ensures r[i] != '×' && r[i] != '÷' {
      assert r[i] == (if display[i] == '×' then '*' else if display[i] == '÷' then '/' else display[i]);
    }
  }

  /* ----- Reminders ----- */

  /** A reminder; `createdAt` is the clock reading in milliseconds. */
  datatype Reminder = Reminder(id: string, text: string, completed: bool, createdAt: int)

  function ReminderId(r: Reminder): string {
    r.id
  }

  /** `addReminder`: a blank text adds nothing; otherwise a fresh, unchecked reminder goes first. */
  function WithReminder(list: seq<Reminder>, text: string, id: string, now: int): (r: seq<Reminder>)
    ensures Trim(text) == "" ==> r == list
    ensures Trim(text) != "" ==> |r| == |list| + 1 && r[1..] == list
    ensures Trim(text) != "" ==> r[0] == Reminder(id, text, false, now)
  {
    if Trim(text) == "" then list else [Reminder(id, text, false, now)] + list
  }

  function Flipped(r: Reminder, id: string): Reminder {
    if r.id == id then r.(completed := !r.completed) else r
  }

  /** `toggleReminder`: flips `completed` on the reminders with `id` and nothing else. */
  function Toggled(list: seq<Reminder>, id: string): (r: seq<Reminder>)
    ensures |r| == |list|
    ensures forall i :: 0 <= i < |list| ==>
      r[i].id == list[i].id && r[i].text == list[i].text && r[i].createdAt == list[i].createdAt &&
      r[i].completed == (if list[i].id == id then !list[i].completed else list[i].completed)
  {
    seq(|list|, i requires 0 <= i < |list| => Flipped(list[i], id))
  }

  /** Toggling the same id twice restores the list. */
  lemma ToggleTwice(list: seq<Reminder>, id: string)
    ensures Toggled(Toggled(list, id), id) == list
  {
    var t := Toggled(Toggled(list, id), id);
    forall i | 0 <= i < |list| ensures t[i] == list[i] {
      assert t[i].completed == list[i].completed;
    }
  }

  /** Toggles of two ids commute. */
  lemma TogglesCommute(list: seq<Reminder>, a: string, b: string)
    ensures Toggled(Toggled(list, a), b) == Toggled(Toggled(list, b), a)
  {
    var x, y := Toggled(Toggled(list, a), b), Toggled(Toggled(list, b), a);
    forall i | 0 <= i < |list| ensures x[i] == y[i] {
      assert x[i].completed == y[i].completed;
    }
  }

  /** Deleting a just-added reminder whose id is new gives back the old list. */
  lemma RemoveAfterAdd(list: seq<Reminder>, text: string, id: string, now: int)
    requires !HasKey(list, ReminderId, id)
    ensures Without(WithReminder(list, text, id, now), ReminderId, id) == list
  {
    if Trim(text) == "" {
      WithoutAbsent(list, ReminderId, id);
    } else {
      WithoutFresh(Reminder(id, text, false, now), list, ReminderId);
    }
  }

  /** Deleting after toggling is deleting: a toggle changes only the reminders that deletion drops. */
  lemma {:induction false} RemoveAfterToggle(list: seq<Reminder>, id: string)
    ensures Without(Toggled(list, id), ReminderId, id) == Without(list, ReminderId, id)
  {
    if list != [] {
      assert Toggled(list, id)[1..] == Toggled(list[1..], id);
      RemoveAfterToggle(list[1..], id);
    }
  }

  /** The page's state: the four state cells the handlers replace. */
  class ToolsPage {
    var calcDisplay: string
    var calcExpression: string
    var reminders: seq<Reminder>
    var newReminder: string

    /** The saved list is what `localStorage` held (or empty). */
    constructor (saved: seq<Reminder>)
      ensures calcDisplay == "0" && calcExpression == "" && reminders == saved && newReminder == ""
    {
      calcDisplay, calcExpression, reminders, newReminder := "0", "", saved, "";
    }

    /** `handleCalcInput`. */
    method PressKey(key: string)
      modifies this
      ensures calcDisplay == AfterKey(old(calcDisplay), key)
      ensures calcExpression == old(calcExpression) && reminders == old(reminders) && newReminder == old(newReminder)
    {
      calcDisplay := AfterKey(calcDisplay, key);
    }

    /** `handleCalcClear`. */
    method Clear()
      modifies this
      ensures calcDisplay == "0" && calcExpression == ""
      ensures reminders == old(reminders) && newReminder == old(newReminder)
    {
      calcDisplay := "0";
      calcExpression := "";
    }

    /** The backspace button. */
    method Backspace()
      modifies this
      ensures calcDisplay == Backspaced(old(calcDisplay))
      ensures calcExpression == old(calcExpression) && reminders == old(reminders) && newReminder == old(newReminder)
    {
      calcDisplay := Backspaced(calcDisplay);
    }

    /**
     * `handleCalcEquals`: the substituted display is evaluated; a value becomes
     * the display and the old display, with ` =`, the expression; a throw shows
     * `Error` and leaves the expression.
     */
    method Equals(eval: Evaluator)
      modifies this
      ensures eval(Substituted(old(calcDisplay))).Value? ==>
        calcExpression == old(calcDisplay) + " =" && calcDisplay == eval(Substituted(old(calcDisplay))).text
      ensures eval(Substituted(old(calcDisplay))).Throws? ==>
        calcDisplay == "Error" && calcExpression == old(calcExpression)
      ensures reminders == old(reminders) && newReminder == old(newReminder)
    {
      var expression := Substituted(calcDisplay);
      match eval(expression)
      case Value(result) =>
        calcExpression := calcDisplay + " =";
        calcDisplay := result;
      case Throws =>
        calcDisplay := "Error";
    }

    /** The reminder input's change handler. */
    method EditNewReminder(text: string)
      modifies this
      ensures newReminder == text
      ensures calcDisplay == old(calcDisplay) && calcExpression == old(calcExpression) && reminders == old(reminders)
    {
      newReminder := text;
    }

    /** `addReminder`, with the clock reading and the id made from it as parameters. */
    method AddReminder(id: string, now: int) returns (added: bool)
      modifies this
      ensures added == (Trim(old(newReminder)) != "")
      ensures reminders == WithReminder(old(reminders), old(newReminder), id, now)
      ensures newReminder == if added then "" else old(newReminder)
      ensures calcDisplay == old(calcDisplay) && calcExpression == old(calcExpression)
    {
      added := Trim(newReminder) != "";
      reminders := WithReminder(reminders, newReminder, id, now);
      if added {
        newReminder := "";
      }
    }

    /** `toggleReminder`. */
    method ToggleReminder(id: string)
      modifies this
      ensures reminders == Toggled(old(reminders), id)
      ensures calcDisplay == old(calcDisplay) && calcExpression == old(calcExpression) && newReminder == old(newReminder)
    {
      reminders := Toggled(reminders, id);
    }

    /** `deleteReminder`. */
    method DeleteReminder(id: string)
      modifies this
      ensures reminders == Without(old(reminders), ReminderId, id)
      ensures calcDisplay == old(calcDisplay) && calcExpression == old(calcExpression) && newReminder == old(newReminder)
    {
      reminders := Without(reminders, ReminderId, id);
    }
  }
}
