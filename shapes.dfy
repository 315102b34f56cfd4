/**
 * The shape segmenter of `resume` (src/index.js:239-259, 536-574): a second walk over the
 * command stream that cuts the run of face commands into named ranges at `g` and `o`
 * boundaries. Offsets and lengths count face COMMANDS (one per `f` line), not sub-faces.
 */
module Shapes {

  import opened Wrappers
  import opened Commands

  /** The `Shape` record (src/index.js:239-259); an `undefined` name is None. */
  datatype Shape = Shape(name: Option<string>, offset: nat, length: int)

  /**
   * The segmenter's locals: the shapes pushed so far, the pending name, where the pending
   * range starts, and how many face commands were seen.
   */
  datatype SegState = SegState(shapes: seq<Shape>, prevName: Option<string>,
                               prevFaceOffset: nat, faceCount: nat)

  const SegStart: SegState := SegState([], None, 0, 0)

  /** The pending range as a shape. */
  function Pending(st: SegState): Shape {
    Shape(st.prevName, st.prevFaceOffset, st.faceCount - st.prevFaceOffset)
  }

  /** A command as the segmenter sees it: a face, a group or object boundary, or neither. */
  datatype Seg = Face | Mark(name: string) | Quiet

  function SegOf(c: Command): Seg {
    match c
    case F(_, _) => Face
    case G(name) => Mark(name)
    case O(name) => Mark(name)
    case _ => Quiet
  }

  function SegsOf(cmds: seq<Command>): (r: seq<Seg>)
    ensures |r| == |cmds|
  {
    if cmds == [] then [] else SegsOf(cmds[..|cmds| - 1]) + [SegOf(cmds[|cmds| - 1])]
  }

  /** A `g` or `o` command named `name` (src/index.js:547-568). */
  function Boundary(st: SegState, name: string): SegState {
    if st.faceCount == 0 then
      // a group before any face only replaces the pending name
      st.(prevName := Some(name), prevFaceOffset := st.faceCount)
    else if |st.shapes| == 0 then
      st.(shapes := st.shapes + [Pending(st)], prevFaceOffset := st.faceCount, prevName := Some(name))
    else if st.faceCount - st.prevFaceOffset > 0 then
      st.(shapes := st.shapes + [Pending(st)], prevFaceOffset := st.faceCount, prevName := Some(name))
    else
      st.(prevName := Some(name))
  }

  /** One command of the segmenter's `switch (cmd.type)` (src/index.js:543-569). */
  function SegStep(st: SegState, e: Seg): SegState {
    match e
    case Face => st.(faceCount := st.faceCount + 1)
    case Mark(name) => Boundary(st, name)
    case Quiet => st
  }

  /** The segmenter's loop over a command stream, one step per command. */
  function SegFold(es: seq<Seg>): SegState {
    if es == [] then SegStart else SegStep(SegFold(es[..|es| - 1]), es[|es| - 1])
  }

  /** The final push of a non-empty pending range (src/index.js:572-574). */
  function Close(st: SegState): seq<Shape> {
    if st.faceCount - st.prevFaceOffset > 0 then st.shapes + [Pending(st)] else st.shapes
  }

  /** The shapes of a command stream. */
  function Segments(cmds: seq<Command>): seq<Shape> {
    Close(SegFold(SegsOf(cmds)))
  }

  /** How many faces the stream holds. */
  function CountF(es: seq<Seg>): nat {
    if es == [] then 0 else CountF(es[..|es| - 1]) + (if es[|es| - 1].Face? then 1 else 0)
  }

  /** The name of the last boundary of the stream, if any. */
  function CurrentName(es: seq<Seg>): Option<string> {
    if es == [] then None
    else if es[|es| - 1].Mark? then Some(es[|es| - 1].name)
    else CurrentName(es[..|es| - 1])
  }

  /** A boundary comes after the last face (or, with no face, anywhere). */
  function SinceFace(es: seq<Seg>): bool {
    if es == [] then false
    else if es[|es| - 1].Mark? then true
    else if es[|es| - 1].Face? then false
    else SinceFace(es[..|es| - 1])
  }

  /** For every face, the name of the last boundary before it. */
  function Groups(es: seq<Seg>): (r: seq<Option<string>>)
    ensures |r| == CountF(es)
  {
    if es == [] then []
    else Groups(es[..|es| - 1]) + (if es[|es| - 1].Face? then [CurrentName(es[..|es| - 1])] else [])
  }

  /** For every face, whether a boundary separates it from the face before it. */
  function Starts(es: seq<Seg>): (r: seq<bool>)
    ensures |r| == CountF(es)
  {
    if es == [] then []
    else Starts(es[..|es| - 1]) + (if es[|es| - 1].Face? then [SinceFace(es[..|es| - 1])] else [])
  }

  /**
   * The shapes cover [0, end) one after another, without gap or overlap, each with at
   * least one face.
   */
  predicate Tiles(shapes: seq<Shape>, end: nat) {
    && (shapes == [] ==> end == 0)
    && (shapes != [] ==> shapes[0].offset == 0
                         && shapes[|shapes| - 1].offset + shapes[|shapes| - 1].length == end)
    && (forall k :: 0 <= k < |shapes| - 1 ==> shapes[k + 1].offset == shapes[k].offset + shapes[k].length)
    && (forall k :: 0 <= k < |shapes| ==> shapes[k].length > 0)
    && (forall k :: 0 <= k < |shapes| ==> shapes[k].offset + shapes[k].length <= end)
  }

  lemma TilesPush(shapes: seq<Shape>, end: nat, s: Shape)
    requires Tiles(shapes, end) && s.offset == end && s.length > 0
    ensures Tiles(shapes + [s], end + s.length)
  {
    var t := shapes + [s];
    forall k | 0 <= k < |t| - 1
      ensures t[k + 1].offset == t[k].offset + t[k].length
    {
      if k < |shapes| - 1 {
        assert t[k] == shapes[k] && t[k + 1] == shapes[k + 1];
      }
    }
  }

  /** The counting part of the segmenter's invariant. */
  predicate CountInv(st: SegState, es: seq<Seg>) {
    && st.faceCount == CountF(es)
    && st.prevName == CurrentName(es)
    && st.prevFaceOffset <= st.faceCount
    && Tiles(st.shapes, st.prevFaceOffset)
    && (st.faceCount == 0 ==> st.shapes == [])
    && (SinceFace(es) ==> st.prevFaceOffset == st.faceCount)
    && (!SinceFace(es) && st.faceCount > 0 ==> st.prevFaceOffset < st.faceCount)
  }

  lemma CountInvStep(st: SegState, es: seq<Seg>, e: Seg)
    requires CountInv(st, es)
    ensures CountInv(SegStep(st, e), es + [e])
  {
    assert (es + [e])[..|es|] == es;
    if e.Mark? && st.faceCount > 0 && st.faceCount - st.prevFaceOffset > 0 {
      TilesPush(st.shapes, st.prevFaceOffset, Pending(st));
    }
  }

  lemma {:induction false} CountInvFold(es: seq<Seg>)
    ensures CountInv(SegFold(es), es)
  {
    if es != [] {
      var init := es[..|es| - 1];
      CountInvFold(init);
      CountInvStep(SegFold(init), init, es[|es| - 1]);
      assert init + [es[|es| - 1]] == es;
    }
  }

  /** Every shape pushed is named by the group of each of its faces; so is the pending range. */
  predicate NameInv(st: SegState, groups: seq<Option<string>>) {
    && (forall k, f {:trigger st.shapes[k], groups[f]} ::
          (0 <= k < |st.shapes| && st.shapes[k].offset <= f < st.shapes[k].offset + st.shapes[k].length
           && f < |groups|) ==> st.shapes[k].name == groups[f])
    && (forall f :: st.prevFaceOffset <= f < st.faceCount && f < |groups| ==> groups[f] == st.prevName)
  }

  lemma NameInvPush(st: SegState, groups: seq<Option<string>>, name: string)
    requires NameInv(st, groups)
    ensures var st' := st.(shapes := st.shapes + [Pending(st)], prevFaceOffset := st.faceCount,
                           prevName := Some(name));
            NameInv(st', groups)
  {
    var st' := st.(shapes := st.shapes + [Pending(st)], prevFaceOffset := st.faceCount,
                   prevName := Some(name));
    forall k, f | 0 <= k < |st'.shapes|
                  && st'.shapes[k].offset <= f < st'.shapes[k].offset + st'.shapes[k].length
                  && f < |groups|
      ensures st'.shapes[k].name == groups[f]
    {
      if k < |st.shapes| {
        assert st'.shapes[k] == st.shapes[k];
      }
    }
  }

  lemma NameInvFace(st: SegState, groups: seq<Option<string>>)
    requires NameInv(st, groups) && |groups| == st.faceCount && st.prevFaceOffset <= st.faceCount
    requires forall k :: 0 <= k < |st.shapes| ==> st.shapes[k].offset + st.shapes[k].length <= st.prevFaceOffset
    ensures NameInv(st.(faceCount := st.faceCount + 1), groups + [st.prevName])
  {
    var g := groups + [st.prevName];
    forall k, f | 0 <= k < |st.shapes|
                  && st.shapes[k].offset <= f < st.shapes[k].offset + st.shapes[k].length
                  && f < |g|
      ensures st.shapes[k].name == g[f]
    {
      assert g[f] == groups[f];
    }
  }

  lemma NameInvStep(st: SegState, es: seq<Seg>, e: Seg)
    requires CountInv(st, es) && NameInv(st, Groups(es))
    ensures NameInv(SegStep(st, e), Groups(es + [e]))
  {
    assert (es + [e])[..|es|] == es;
    var g0 := Groups(es);
    match e
    case Face =>
      assert Groups(es + [e]) == g0 + [st.prevName];
      NameInvFace(st, g0);
    case Mark(name) =>
      assert Groups(es + [e]) == g0;
      if st.faceCount > 0 && (|st.shapes| == 0 || st.faceCount - st.prevFaceOffset > 0) {
        NameInvPush(st, g0, name);
      }
    case Quiet =>
      assert Groups(es + [e]) == g0;
  }

  lemma {:induction false} NameInvFold(es: seq<Seg>)
    ensures NameInv(SegFold(es), Groups(es))
  {
    if es != [] {
      var init := es[..|es| - 1];
      NameInvFold(init);
      CountInvFold(init);
      NameInvStep(SegFold(init), init, es[|es| - 1]);
      assert init + [es[|es| - 1]] == es;
    }
  }

  /** Faces inside a shape, or inside the pending range, do not follow a boundary. */
  predicate InteriorInv(st: SegState, starts: seq<bool>) {
    && (forall k, f {:trigger st.shapes[k], starts[f]} ::
          (0 <= k < |st.shapes| && st.shapes[k].offset < f < st.shapes[k].offset + st.shapes[k].length
           && f < |starts|) ==> !starts[f])
    && (forall f :: st.prevFaceOffset < f < st.faceCount && f < |starts| ==> !starts[f])
  }

  /** Every shape after the first, and the pending range after a shape, starts after a boundary. */
  predicate StartInv(st: SegState, starts: seq<bool>) {
    && (forall k :: 0 < k < |st.shapes| && st.shapes[k].offset < |starts| ==> starts[st.shapes[k].offset])
    && (|st.shapes| > 0 && st.prevFaceOffset < st.faceCount && st.prevFaceOffset < |starts|
        ==> starts[st.prevFaceOffset])
  }

  lemma InteriorInvPush(st: SegState, starts: seq<bool>, name: string)
    requires InteriorInv(st, starts)
    ensures var st' := st.(shapes := st.shapes + [Pending(st)], prevFaceOffset := st.faceCount,
                           prevName := Some(name));
            InteriorInv(st', starts)
  {
    var st' := st.(shapes := st.shapes + [Pending(st)], prevFaceOffset := st.faceCount,
                   prevName := Some(name));
    forall k, f | 0 <= k < |st'.shapes|
                  && st'.shapes[k].offset < f < st'.shapes[k].offset + st'.shapes[k].length
                  && f < |starts|
      ensures !starts[f]
    {
      if k < |st.shapes| {
        assert st'.shapes[k] == st.shapes[k];
      }
    }
  }

  lemma StartInvPush(st: SegState, starts: seq<bool>, name: string)
    requires StartInv(st, starts) && st.prevFaceOffset < st.faceCount
    ensures var st' := st.(shapes := st.shapes + [Pending(st)], prevFaceOffset := st.faceCount,
                           prevName := Some(name));
            StartInv(st', starts)
  {
    var st' := st.(shapes := st.shapes + [Pending(st)], prevFaceOffset := st.faceCount,
                   prevName := Some(name));
    forall k | 0 < k < |st'.shapes| && st'.shapes[k].offset < |starts|
      ensures starts[st'.shapes[k].offset]
    {
      if k < |st.shapes| {
        assert st'.shapes[k] == st.shapes[k];
      }
    }
  }

  lemma InteriorInvFace(st: SegState, starts: seq<bool>, b: bool)
    requires InteriorInv(st, starts) && |starts| == st.faceCount && st.prevFaceOffset <= st.faceCount
    requires forall k :: 0 <= k < |st.shapes| ==> st.shapes[k].offset + st.shapes[k].length <= st.prevFaceOffset
    requires st.prevFaceOffset < st.faceCount ==> !b
    ensures InteriorInv(st.(faceCount := st.faceCount + 1), starts + [b])
  {
    var s := starts + [b];
    forall k, f | 0 <= k < |st.shapes|
                  && st.shapes[k].offset < f < st.shapes[k].offset + st.shapes[k].length
                  && f < |s|
      ensures !s[f]
    {
      assert s[f] == starts[f];
    }
  }

  lemma StartInvFace(st: SegState, starts: seq<bool>, b: bool)
    requires StartInv(st, starts) && |starts| == st.faceCount && st.prevFaceOffset <= st.faceCount
    requires forall k :: 0 <= k < |st.shapes| ==> st.shapes[k].offset + st.shapes[k].length <= st.prevFaceOffset
    requires forall k :: 0 <= k < |st.shapes| ==> st.shapes[k].length > 0
    requires |st.shapes| > 0 && st.prevFaceOffset == st.faceCount ==> b
    ensures StartInv(st.(faceCount := st.faceCount + 1), starts + [b])
  {
    var s := starts + [b];
    forall k | 0 < k < |st.shapes| && st.shapes[k].offset < |s|
      ensures s[st.shapes[k].offset]
    {
      assert s[st.shapes[k].offset] == starts[st.shapes[k].offset];
    }
  }

  lemma InteriorInvStep(st: SegState, es: seq<Seg>, e: Seg)
    requires CountInv(st, es) && InteriorInv(st, Starts(es))
    ensures InteriorInv(SegStep(st, e), Starts(es + [e]))
  {
    assert (es + [e])[..|es|] == es;
    var s0 := Starts(es);
    match e
    case Face =>
      assert Starts(es + [e]) == s0 + [SinceFace(es)];
      InteriorInvFace(st, s0, SinceFace(es));
    case Mark(name) =>
      assert Starts(es + [e]) == s0;
      if st.faceCount > 0 && (|st.shapes| == 0 || st.faceCount - st.prevFaceOffset > 0) {
        InteriorInvPush(st, s0, name);
      }
    case Quiet =>
      assert Starts(es + [e]) == s0;
  }

  lemma StartInvStep(st: SegState, es: seq<Seg>, e: Seg)
    requires CountInv(st, es) && StartInv(st, Starts(es))
    ensures StartInv(SegStep(st, e), Starts(es + [e]))
  {
    assert (es + [e])[..|es|] == es;
    var s0 := Starts(es);
    match e
    case Face =>
      assert Starts(es + [e]) == s0 + [SinceFace(es)];
      StartInvFace(st, s0, SinceFace(es));
    case Mark(name) =>
      assert Starts(es + [e]) == s0;
      if st.faceCount > 0 && (|st.shapes| == 0 || st.faceCount - st.prevFaceOffset > 0) {
        StartInvPush(st, s0, name);
      }
    case Quiet =>
      assert Starts(es + [e]) == s0;
  }

  lemma {:induction false} InteriorInvFold(es: seq<Seg>)
    ensures InteriorInv(SegFold(es), Starts(es))
  {
    if es != [] {
      var init := es[..|es| - 1];
      InteriorInvFold(init);
      CountInvFold(init);
      InteriorInvStep(SegFold(init), init, es[|es| - 1]);
      assert init + [es[|es| - 1]] == es;
    }
  }

  lemma {:induction false} StartInvFold(es: seq<Seg>)
    ensures StartInv(SegFold(es), Starts(es))
  {
    if es != [] {
      var init := es[..|es| - 1];
      StartInvFold(init);
      CountInvFold(init);
      StartInvStep(SegFold(init), init, es[|es| - 1]);
      assert init + [es[|es| - 1]] == es;
    }
  }

  /**
   * The shapes of a stream tile [0, number of faces) with non-empty ranges, so a stream
   * without faces has none.
   */
  lemma SegmentTiles(es: seq<Seg>)
    ensures Tiles(Close(SegFold(es)), CountF(es))
    ensures CountF(es) == 0 ==> Close(SegFold(es)) == []
  {
    CountInvFold(es);
    var st := SegFold(es);
    if st.faceCount - st.prevFaceOffset > 0 {
      TilesPush(st.shapes, st.prevFaceOffset, Pending(st));
    }
  }

  /**
   * Every face of a shape carries the shape's name, which is that of the last `g` or `o`
   * before the face (None when there is none).
   */
  lemma SegmentNames(es: seq<Seg>)
    ensures var shapes, groups := Close(SegFold(es)), Groups(es);
            forall k, f {:trigger shapes[k], groups[f]} ::
              (0 <= k < |shapes| && shapes[k].offset <= f < shapes[k].offset + shapes[k].length
               && f < |groups|) ==> shapes[k].name == groups[f]
  {
    CountInvFold(es);
    NameInvFold(es);
    var st := SegFold(es);
    if st.faceCount - st.prevFaceOffset > 0 {
      NameInvPush(st, Groups(es), "");
    }
  }

  /**
   * Two neighbouring faces fall in the same shape exactly when no `g` or `o` comes between
   * them: no face inside a shape follows a boundary, and every shape after the first starts
   * at a face that does.
   */
  lemma SegmentBreaks(es: seq<Seg>)
    ensures var shapes, starts := Close(SegFold(es)), Starts(es);
            && (forall k, f {:trigger shapes[k], starts[f]} ::
                  (0 <= k < |shapes| && shapes[k].offset < f < shapes[k].offset + shapes[k].length
                   && f < |starts|) ==> !starts[f])
            && (forall k :: 0 < k < |shapes| && shapes[k].offset < |starts| ==> starts[shapes[k].offset])
  {
    CountInvFold(es);
    InteriorInvFold(es);
    StartInvFold(es);
    var st := SegFold(es);
    if st.faceCount - st.prevFaceOffset > 0 {
      InteriorInvPush(st, Starts(es), "");
      StartInvPush(st, Starts(es), "");
    }
  }

  /** Faces with no `g` or `o` anywhere make a single shape with no name. */
  lemma {:induction false} NoGroupsOneShape(es: seq<Seg>)
    requires forall i :: 0 <= i < |es| ==> !es[i].Mark?
    ensures SegFold(es) == SegState([], None, 0, CountF(es))
    ensures CountF(es) > 0 ==> Close(SegFold(es)) == [Shape(None, 0, CountF(es))]
  {
    if es != [] {
      var init := es[..|es| - 1];
      assert forall i :: 0 <= i < |init| ==> init[i] == es[i];
      NoGroupsOneShape(init);
    }
  }

  lemma SegFoldSnoc(es: seq<Seg>, e: Seg)
    ensures SegFold(es + [e]) == SegStep(SegFold(es), e)
  {
    assert (es + [e])[..|es|] == es;
  }

  /** `g A`, two faces, `g B`, three faces: the shapes (A, 0, 2) and (B, 2, 3). */
  lemma TwoGroups()
    ensures Close(SegFold([Mark("A"), Face, Face, Mark("B"), Face, Face, Face]))
         == [Shape(Some("A"), 0, 2), Shape(Some("B"), 2, 3)]
  {
    var a := Shape(Some("A"), 0, 2);
    var e1 := [Mark("A")];
    var e3 := e1 + [Face] + [Face];
    var e4 := e3 + [Mark("B")];
    var e7 := e4 + [Face] + [Face] + [Face];
    SegFoldSnoc([], Mark("A"));
    assert [] + [Mark("A")] == e1;
    SegFoldSnoc(e1, Face);
    SegFoldSnoc(e1 + [Face], Face);
    assert SegFold(e3) == SegState([], Some("A"), 0, 2);
    SegFoldSnoc(e3, Mark("B"));
    assert SegFold(e4) == SegState([a], Some("B"), 2, 2);
    SegFoldSnoc(e4, Face);
    SegFoldSnoc(e4 + [Face], Face);
    SegFoldSnoc(e4 + [Face] + [Face], Face);
    assert SegFold(e7) == SegState([a], Some("B"), 2, 5);
    assert e7 == [Mark("A"), Face, Face, Mark("B"), Face, Face, Face];
  }

  lemma SegsOfSnoc(cmds: seq<Command>, i: nat)
    requires i < |cmds|
    ensures SegsOf(cmds[..i + 1]) == SegsOf(cmds[..i]) + [SegOf(cmds[i])]
  {
    assert cmds[..i + 1][..i] == cmds[..i];
  }

  /** The segmentation loop of `resume` and its final push (src/index.js:536-574). */
  method Segment(cmds: seq<Command>) returns (shapes: seq<Shape>)
    ensures shapes == Segments(cmds)
  {
    shapes := [];
    var prevName: Option<string> := None;
    var prevFaceOffset: nat := 0;
    var faceCount: nat := 0;
    ghost var es: seq<Seg> := [];
    for i := 0 to |cmds|
      invariant es == SegsOf(cmds[..i])
      invariant SegFold(es) == SegState(shapes, prevName, prevFaceOffset, faceCount)
    {
      SegsOfSnoc(cmds, i);
      SegFoldSnoc(es, SegOf(cmds[i]));
      es := es + [SegOf(cmds[i])];
      match cmds[i] {
        case F(_, _) =>
          faceCount := faceCount + 1;
        case G(name) =>
          shapes, prevName, prevFaceOffset := Cut(shapes, prevName, prevFaceOffset, faceCount, name);
        case O(name) =>
          shapes, prevName, prevFaceOffset := Cut(shapes, prevName, prevFaceOffset, faceCount, name);
        case _ =>
      }
    }
    assert cmds[..|cmds|] == cmds;
    if faceCount - prevFaceOffset > 0 {
      shapes := shapes + [Shape(prevName, prevFaceOffset, faceCount - prevFaceOffset)];
    }
  }

  /** The `case CmdO: case CmdG:` branch of the segmentation loop (src/index.js:547-568). */
  method Cut(shapes: seq<Shape>, prevName: Option<string>, prevFaceOffset: nat, faceCount: nat,
             name: string)
    returns (shapes': seq<Shape>, prevName': Option<string>, prevFaceOffset': nat)
    ensures var st := Boundary(SegState(shapes, prevName, prevFaceOffset, faceCount), name);
            st == SegState(shapes', prevName', prevFaceOffset', faceCount)
  {
    shapes', prevName', prevFaceOffset' := shapes, prevName, prevFaceOffset;
    if faceCount == 0 {
      prevName' := Some(name);
      prevFaceOffset' := faceCount;
    } else {
      if |shapes| == 0 {
        shapes' := shapes + [Shape(prevName, prevFaceOffset, faceCount - prevFaceOffset)];
        prevFaceOffset' := faceCount;
      } else if faceCount - prevFaceOffset > 0 {
        shapes' := shapes + [Shape(prevName, prevFaceOffset, faceCount - prevFaceOffset)];
        prevFaceOffset' := faceCount;
      }
      prevName' := Some(name);
    }
  }
}
