/**
  The joypad and its P1 register (0xFF00). Bits 5 and 4 select the action and
  direction groups (0 = selected); bits 3..0 report the four lines of the
  selected groups, active low; bits 7 and 6 always read 1.
 */
module Joypad {
  import opened Bits

  datatype Button = Right | Left | Up | Down | A | B | Select | Start

  /** The two select flags and the set of buttons held down (one flag per button in the emulator). */
  datatype Joypad = Joypad(selectAction: bool, selectDirection: bool, pressed: set<Button>)

  /** The P1 line a button drives: Right/A on bit 0, Left/B on 1, Up/Select on 2, Down/Start on 3. */
  function Line(btn: Button): nat
  {
    match btn
    case Right => 0
    case A => 0
    case Left => 1
    case B => 1
    case Up => 2
    case Select => 2
    case Down => 3
    case Start => 3
  }

  predicate IsDirection(btn: Button)
  {
    btn == Right || btn == Left || btn == Up || btn == Down
  }

  predicate Pressed(j: Joypad, btn: Button)
  {
    btn in j.pressed
  }

  /** The button's group is selected for reading. */
  predicate Selected(j: Joypad, btn: Button)
  {
    if IsDirection(btn) then j.selectDirection else j.selectAction
  }

  /** `Joypad::new`: both groups selected, nothing pressed. */
  function New(): (r: Joypad)
    ensures r.selectAction && r.selectDirection
    ensures forall btn: Button :: !Pressed(r, btn)
  {
    Joypad(true, true, {})
  }

  /** `press`: that button is down; the select flags and every other button are unchanged. */
  function Press(j: Joypad, btn: Button): (r: Joypad)
    ensures Pressed(r, btn)
    ensures forall other: Button :: other != btn ==> Pressed(r, other) == Pressed(j, other)
    ensures r.selectAction == j.selectAction && r.selectDirection == j.selectDirection
  {
    j.(pressed := j.pressed + {btn})
  }

  /** `release`: that button is up; the select flags and every other button are unchanged. */
  function Release(j: Joypad, btn: Button): (r: Joypad)
    ensures !Pressed(r, btn)
    ensures forall other: Button :: other != btn ==> Pressed(r, other) == Pressed(j, other)
    ensures r.selectAction == j.selectAction && r.selectDirection == j.selectDirection
  {
    j.(pressed := j.pressed - {btn})
  }

  /** Releasing a button that was just pressed restores the pad if it had been up. */
  lemma PressThenRelease(j: Joypad, btn: Button)
    ensures Release(Press(j, btn), btn) == Release(j, btn)
    ensures !Pressed(j, btn) ==> Release(Press(j, btn), btn) == j
  {
  }

  /** Clears `mask` in `v` when `cond` holds (one `value &= !mask` step of `read`). */
  function ClearIf(v: byte, cond: bool, mask: byte): byte
  {
    if cond then v & !mask else v
  }

  /** The line-`i` mask of P1. */
  function LineMask(i: nat): byte
    requires i < 4
  {
    (1 as byte) << i
  }

  /** Line `i` is pulled low: some button on it is pressed and its group is selected. */
  predicate LineLow(j: Joypad, i: nat)
  {
    exists btn: Button :: Line(btn) == i && Pressed(j, btn) && Selected(j, btn)
  }

  /** `read`: the P1 value the CPU sees. */
  function Read(j: Joypad): (r: byte)
    ensures r & 0xC0 == 0xC0
    ensures (r & 0x10 == 0) == j.selectDirection
    ensures (r & 0x20 == 0) == j.selectAction
  {
    var v0 := 0xCF;
    var v1 := if !j.selectDirection then v0 | 0x10 else v0;
    var v2 := if !j.selectAction then v1 | 0x20 else v1;
    var v3 := if j.selectDirection
      then ClearIf(ClearIf(ClearIf(ClearIf(v2, Down in j.pressed, 0x08), Up in j.pressed, 0x04),
                           Left in j.pressed, 0x02), Right in j.pressed, 0x01)
      else v2;
    if j.selectAction
      then ClearIf(ClearIf(ClearIf(ClearIf(v3, Start in j.pressed, 0x08), Select in j.pressed, 0x04),
                           B in j.pressed, 0x02), A in j.pressed, 0x01)
      else v3
  }

  /** Each low bit of P1 reads 0 exactly when a selected button on that line is pressed. */
  lemma ReadLines(j: Joypad, i: nat)
    requires i < 4
    ensures (Read(j) & LineMask(i) == 0) <==> LineLow(j, i)
  {
    var btns := [[Right, A], [Left, B], [Up, Select], [Down, Start]];
    assert forall btn: Button :: Line(btn) == i ==> btn in btns[i];
    if LineLow(j, i) {
      var btn :| Line(btn) == i && Pressed(j, btn) && Selected(j, btn);
      assert btn in btns[i];
    } else {
      assert !(Pressed(j, btns[i][0]) && Selected(j, btns[i][0]));
      assert !(Pressed(j, btns[i][1]) && Selected(j, btns[i][1]));
    }
  }

  /** With nothing pressed the low nibble reads 0xF; a fresh pad reads 0xCF. */
  lemma ReadIdle(j: Joypad)
    requires forall btn: Button :: !Pressed(j, btn)
    ensures Read(j) & 0x0F == 0x0F
    ensures j == New() ==> Read(j) == 0xCF
  {
    assert !Pressed(j, Right) && !Pressed(j, Left) && !Pressed(j, Up) && !Pressed(j, Down);
    assert !Pressed(j, A) && !Pressed(j, B) && !Pressed(j, Select) && !Pressed(j, Start);
  }

  /** `write`: only bits 5 and 4 matter; the buttons are unchanged. */
  function Write(j: Joypad, v: byte): (r: Joypad)
    ensures r.selectAction == (v & 0x20 == 0) && r.selectDirection == (v & 0x10 == 0)
    ensures forall btn: Button :: Pressed(r, btn) == Pressed(j, btn)
  {
    j.(selectAction := v & 0x20 == 0, selectDirection := v & 0x10 == 0)
  }

  /** Bits 5..4 written to P1 read back unchanged, and the other bits written are ignored. */
  lemma WriteThenRead(j: Joypad, v: byte)
    ensures Read(Write(j, v)) & 0x30 == v & 0x30
    ensures Write(j, v) == Write(j, v & 0x30)
  {
    var r := Read(Write(j, v));
    assert (r & 0x10 == 0) == (v & 0x10 == 0);
    assert (r & 0x20 == 0) == (v & 0x20 == 0);
  }
}
