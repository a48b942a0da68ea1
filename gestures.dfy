/**
 * The classifier: which intents a frame's features express, and the status
 * label the controller shows for them.
 */
module Gestures {
  import opened Landmarks

  /** The wrist is below the rest of the hand. */
  predicate Forward(f: Features) { f.y0 > f.maxY }

  /** Forward, with the index tip above every other landmark. */
  predicate Sprint(f: Features) { f.y0 > f.maxY && f.y8 < f.minYNo8 }

  /** The wrist is right of the rest of the hand (the image is mirrored). */
  predicate TiltLeft(f: Features) { f.x0 > f.maxX }

  /** The wrist is left of the rest of the hand. */
  predicate TiltRight(f: Features) { f.x0 < f.minX }

  /** The wrist is above the rest of the hand. */
  predicate Backward(f: Features) { f.y0 < f.minY }

  /** The thumb tip is right of every other landmark. */
  predicate Jump(f: Features) { f.x4 > f.maxXNo4 }

  /** The crouch test of Forward, Left and Right: pinky tip above the ring MCP. */
  predicate CrouchFront(f: Features) { f.y20 < f.y13 }

  /** The crouch test of Backward: pinky tip below the ring PIP. */
  predicate CrouchBack(f: Features) { f.y20 > f.y14 }

  predicate AnyDirection(f: Features) {
    Forward(f) || TiltLeft(f) || TiltRight(f) || Backward(f)
  }

  function WithShift(base: string, crouch: bool): string {
    if crouch then base + " + Shift" else base
  }

  /**
   * The primary label: of the blocks Forward, Run, Left, Right, Backward,
   * the last one that fires names it; Run carries no crouch suffix.
   */
  function Primary(f: Features): string {
    if Backward(f) then WithShift("Backward", CrouchBack(f))
    else if TiltRight(f) then WithShift("Right", CrouchFront(f))
    else if TiltLeft(f) then WithShift("Left", CrouchFront(f))
    else if Sprint(f) then "Run"
    else if Forward(f) then WithShift("Forward", CrouchFront(f))
    else ""
  }

  /** A block that fires replaces the label; one that does not leaves it. */
  function Overwrite(fires: bool, name: string, text: string): string {
    if fires then name else text
  }

  /**
   * The primary label as the blocks build it: each of Forward, Run, Left,
   * Right and Backward, in that order, overwrites the label when it fires.
   */
  function BlockOrderLabel(f: Features): string {
    var t1 := Overwrite(Forward(f), WithShift("Forward", CrouchFront(f)), "");
    var t2 := Overwrite(Sprint(f), "Run", t1);
    var t3 := Overwrite(TiltLeft(f), WithShift("Left", CrouchFront(f)), t2);
    var t4 := Overwrite(TiltRight(f), WithShift("Right", CrouchFront(f)), t3);
    Overwrite(Backward(f), WithShift("Backward", CrouchBack(f)), t4)
  }

  /**
   * Overwriting in block order is choosing by priority: the label the
   * blocks leave is the one of the last block that fires, or empty.
   */
  lemma BlockOrderIsPriority(f: Features)
    ensures BlockOrderLabel(f) == Primary(f)
    ensures |Primary(f)| > 0 <==> AnyDirection(f)
  {
    if !Backward(f) && !TiltRight(f) && !TiltLeft(f) && !Sprint(f) {
      assert BlockOrderLabel(f) == Overwrite(Forward(f), WithShift("Forward", CrouchFront(f)), "");
    }
  }

  /** The status label: the primary label, followed by " Jump" when the thumb is out. */
  function Label(f: Features): string {
    WithJump(Primary(f), Jump(f))
  }

  /** The Jump block's effect on the label: " Jump" appended, or "Jump" alone. */
  function WithJump(text: string, jump: bool): string {
    if jump then (if |text| > 0 then text + " Jump" else "Jump") else text
  }

  /**
   * The label is empty exactly when nothing fires, is "Jump" exactly when
   * only the thumb fires, and is never the bare "Shift".
   */
  lemma LabelCases(f: Features)
    ensures Label(f) == "" <==> !AnyDirection(f) && !Jump(f)
    ensures Label(f) == "Jump" <==> !AnyDirection(f) && Jump(f)
    ensures Label(f) != "Shift"
  {
    var base := Primary(f);
    assert AnyDirection(f) <==> |base| > 0;
    if |base| > 0 {
      assert base[0] != 'J';
      assert Label(f)[0] != 'J';
    }
  }

  /**
   * In a frame of Left hands the wrist cannot be right of the box while the
   * thumb tip is right of every other landmark: the thumb tip is in the box
   * and the wrist is among the landmarks the thumb is compared with. So
   * "Left Jump" is never shown.
   */
  lemma LeftJumpExclusive(hs: seq<Hand>)
    requires |hs| > 0 && AllLeft(hs)
    ensures !(TiltLeft(Extract(hs)) && Jump(Extract(hs)))
    ensures Label(Extract(hs)) != "Left Jump" && Label(Extract(hs)) != "Left + Shift Jump"
  {
    var f := Extract(hs);
    var k := |hs| - 1;
    ExtractSinglePoints(hs, k);
    ExtractBounds(hs);
    assert f.x4 <= f.maxX;
    assert f.x0 <= f.maxXNo4;
    if Jump(f) {
      var base := Primary(f);
      assert base != "Left" && base != "Left + Shift" by {
        assert |base| > 0 ==> base[0] != 'L';
      }
      if |base| > 0 {
        assert Label(f)[0] != 'L';
      }
    }
  }

  /**
   * In a frame of Left hands the wrist is never both below and above the
   * box, nor both right and left of it.
   */
  lemma OppositeTiltsExclusive(hs: seq<Hand>)
    requires |hs| > 0 && AllLeft(hs)
    ensures !(Forward(Extract(hs)) && Backward(Extract(hs)))
    ensures !(TiltLeft(Extract(hs)) && TiltRight(Extract(hs)))
  {
    var f := Extract(hs);
    var k := |hs| - 1;
    ExtractBounds(hs);
    var p := hs[k].points[1];
    assert f.minY <= p.y <= f.maxY && f.minX <= p.x <= f.maxX;
  }
}
