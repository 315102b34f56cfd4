/**
 * The resolver loop of `resume` (src/index.js:474-526, 333-338): a walk over the command
 * stream that keeps the vertex, normal and texture-coordinate counters and the active
 * material id, appends to the output arrays, and rewrites each face reference with
 * `fixIndex`.
 */
module Resolver {

  import opened Commands
  import opened Materials

  /**
   * `fixIndex` (src/index.js:333-338): 1-based references become 0-based, 0 stays 0, and a
   * negative reference counts back from the `n` elements declared so far.
   */
  function FixIndex(idx: int, n: nat): (r: int)
    ensures 0 < idx <= n ==> 0 <= r < n
    ensures idx < 0 && 0 <= n + idx ==> 0 <= r < n
    ensures idx == Absent ==> r == n - 1
  {
    if idx > 0 then idx - 1
    else if idx == 0 then 0
    else n + idx
  }

  /**
   * A relative reference `-k` and the absolute reference `n - k + 1` name the same element:
   * -1 is the last one declared, -n the first.
   */
  lemma FixIndexRelative(k: nat, n: nat)
    requires 1 <= k <= n
    ensures FixIndex(-(k as int), n) == FixIndex(n - k + 1, n) == n - k
  {
  }

  /**
   * An absent slot is rewritten too: it names the LAST element declared so far, and is
   * negative (-1) when none was.
   */
  lemma AbsentSlot(n: nat)
    ensures FixIndex(Absent, n) == n - 1
    ensures n > 0 ==> 0 <= FixIndex(Absent, n) < n
    ensures n == 0 ==> FixIndex(Absent, n) < 0
  {
  }

  /** A face reference with each slot fixed against its own counter (src/index.js:516-519). */
  function FixTriple(t: Triple, vcnt: nat, tcnt: nat, ncnt: nat): Triple {
    Triple(FixIndex(t.v, vcnt), FixIndex(t.vt, tcnt), FixIndex(t.vn, ncnt))
  }

  /** Every reference of a face command fixed against the same counters. */
  function FixAll(ts: seq<Triple>, vcnt: nat, tcnt: nat, ncnt: nat): (r: seq<Triple>)
    ensures |r| == |ts|
  {
    if ts == [] then [] else FixAll(ts[..|ts| - 1], vcnt, tcnt, ncnt) + [FixTriple(ts[|ts| - 1], vcnt, tcnt, ncnt)]
  }

  lemma {:induction false} FixAllAt(ts: seq<Triple>, vcnt: nat, tcnt: nat, ncnt: nat, j: nat)
    requires j < |ts|
    ensures FixAll(ts, vcnt, tcnt, ncnt)[j] == FixTriple(ts[j], vcnt, tcnt, ncnt)
  {
    if j < |ts| - 1 {
      FixAllAt(ts[..|ts| - 1], vcnt, tcnt, ncnt, j);
    }
  }

  /**
   * The resolver's locals: the six output arrays and the four counters. `materialId` is the
   * id of the active material, 0 until a `usemtl` names a known material.
   */
  datatype Resolved = Resolved(
    vertices: seq<real>, normals: seq<real>, texcoords: seq<real>,
    faces: seq<Triple>, materialIds: seq<nat>, faceNumVerts: seq<nat>,
    vcnt: nat, ncnt: nat, tcnt: nat, materialId: nat)

  const ResolveStart: Resolved := Resolved([], [], [], [], [], [], 0, 0, 0, 0)

  /** One command of the resolver's `switch (cmd.type)` (src/index.js:489-528). */
  function ResolveStep(s: Resolved, c: Command, byName: map<string, Material>): Resolved {
    match c
    case UseMtl(name) => if name in byName then s.(materialId := byName[name].id) else s
    case V(x, y, z) => s.(vertices := s.vertices + [x, y, z], vcnt := s.vcnt + 1)
    case VN(x, y, z) => s.(normals := s.normals + [x, y, z], ncnt := s.ncnt + 1)
    case VT(u, v) => s.(texcoords := s.texcoords + [u, v], tcnt := s.tcnt + 1)
    case F(refs, numVerts) =>
      s.(faces := s.faces + FixAll(refs, s.vcnt, s.tcnt, s.ncnt),
         materialIds := s.materialIds + Repeat(s.materialId, |numVerts|),
         faceNumVerts := s.faceNumVerts + numVerts)
    case G(_) => s
    case O(_) => s
  }

  /** The resolver over a command stream, one step per command. */
  function ResolveFold(cmds: seq<Command>, byName: map<string, Material>): Resolved {
    if cmds == [] then ResolveStart
    else ResolveStep(ResolveFold(cmds[..|cmds| - 1], byName), cmds[|cmds| - 1], byName)
  }

  /** How many commands of the stream are vertices, normals, texture coordinates. */
  function CountV(cmds: seq<Command>): nat {
    if cmds == [] then 0 else CountV(cmds[..|cmds| - 1]) + (if cmds[|cmds| - 1].V? then 1 else 0)
  }

  function CountVN(cmds: seq<Command>): nat {
    if cmds == [] then 0 else CountVN(cmds[..|cmds| - 1]) + (if cmds[|cmds| - 1].VN? then 1 else 0)
  }

  function CountVT(cmds: seq<Command>): nat {
    if cmds == [] then 0 else CountVT(cmds[..|cmds| - 1]) + (if cmds[|cmds| - 1].VT? then 1 else 0)
  }

  /**
   * The counters count the declarations; the position, normal and texture arrays hold 3, 3
   * and 2 numbers per declaration; the face array holds every reference of every face
   * command, and the material-id and vertex-count arrays one entry per sub-face each.
   */
  lemma {:induction false} ResolveCounts(cmds: seq<Command>, byName: map<string, Material>)
    ensures var s := ResolveFold(cmds, byName);
            && s.vcnt == CountV(cmds) && s.ncnt == CountVN(cmds) && s.tcnt == CountVT(cmds)
            && |s.vertices| == 3 * s.vcnt && |s.normals| == 3 * s.ncnt && |s.texcoords| == 2 * s.tcnt
            && |s.faces| == RefCount(cmds)
            && |s.materialIds| == |s.faceNumVerts| == SubFaces(cmds)
  {
    if cmds != [] {
      ResolveCounts(cmds[..|cmds| - 1], byName);
    }
  }

  /** The vertex counts of the well-formed face commands add up to the references resolved. */
  lemma {:induction false} ResolveSum(cmds: seq<Command>, byName: map<string, Material>)
    requires forall k :: 0 <= k < |cmds| ==> WellFormed(cmds[k])
    ensures var s := ResolveFold(cmds, byName);
            Sum(s.faceNumVerts) == |s.faces|
  {
    if cmds != [] {
      var init := cmds[..|cmds| - 1];
      ResolveSum(init, byName);
      var s := ResolveFold(init, byName);
      var c := cmds[|cmds| - 1];
      assert WellFormed(c);
      if c.F? {
        SumAppend(s.faceNumVerts, c.numVerts);
      }
    }
  }

  /** A `usemtl` that names a material of the table. */
  predicate KnownUse(c: Command, byName: map<string, Material>) {
    c.UseMtl? && c.name in byName
  }

  /** With no `usemtl` naming a known material, the active id stays the default 0. */
  lemma {:induction false} DefaultMaterial(cmds: seq<Command>, byName: map<string, Material>)
    requires forall i :: 0 <= i < |cmds| ==> !KnownUse(cmds[i], byName)
    ensures ResolveFold(cmds, byName).materialId == 0
  {
    if cmds != [] {
      var init := cmds[..|cmds| - 1];
      assert forall i :: 0 <= i < |init| ==> init[i] == cmds[i];
      DefaultMaterial(init, byName);
    }
  }

  /** With an empty table every sub-face gets the default material 0. */
  lemma {:induction false} NoMaterialIds(cmds: seq<Command>)
    ensures var ids := ResolveFold(cmds, map[]).materialIds;
            forall k :: 0 <= k < |ids| ==> ids[k] == 0
  {
    if cmds != [] {
      var init := cmds[..|cmds| - 1];
      NoMaterialIds(init);
      DefaultMaterial(init, map[]);
    }
  }

  /**
   * The active material is that of the LAST `usemtl` naming a known material: a `usemtl`
   * naming an unknown one changes nothing.
   */
  lemma {:induction false} ActiveMaterial(cmds: seq<Command>, byName: map<string, Material>, i: nat)
    requires i < |cmds| && KnownUse(cmds[i], byName)
    requires forall j :: i < j < |cmds| ==> !KnownUse(cmds[j], byName)
    ensures ResolveFold(cmds, byName).materialId == byName[cmds[i].name].id
  {
    var n := |cmds|;
    if i < n - 1 {
      var init := cmds[..n - 1];
      assert forall j :: 0 <= j < |init| ==> init[j] == cmds[j];
      ActiveMaterial(init, byName, i);
    }
  }

  /** The references resolved for the first `i` commands stay as they are. */
  lemma {:induction false} FacesPrefix(cmds: seq<Command>, i: nat, byName: map<string, Material>)
    requires i <= |cmds|
    ensures var s, p := ResolveFold(cmds, byName), ResolveFold(cmds[..i], byName);
            |p.faces| <= |s.faces| && s.faces[..|p.faces|] == p.faces
  {
    if i < |cmds| {
      var init := cmds[..|cmds| - 1];
      FacesPrefix(init, i, byName);
      assert init[..i] == cmds[..i];
      var s, q := ResolveFold(cmds, byName), ResolveFold(init, byName);
      var p := ResolveFold(cmds[..i], byName);
      assert s.faces[..|q.faces|] == q.faces;
      assert s.faces[..|p.faces|] == q.faces[..|p.faces|];
    } else {
      assert cmds[..i] == cmds;
    }
  }

  /** The material ids appended for the first `i` commands stay as they are. */
  lemma {:induction false} IdsPrefix(cmds: seq<Command>, i: nat, byName: map<string, Material>)
    requires i <= |cmds|
    ensures var s, p := ResolveFold(cmds, byName), ResolveFold(cmds[..i], byName);
            |p.materialIds| <= |s.materialIds| && s.materialIds[..|p.materialIds|] == p.materialIds
  {
    if i < |cmds| {
      var init := cmds[..|cmds| - 1];
      IdsPrefix(init, i, byName);
      assert init[..i] == cmds[..i];
      var s, q := ResolveFold(cmds, byName), ResolveFold(init, byName);
      var p := ResolveFold(cmds[..i], byName);
      assert s.materialIds[..|q.materialIds|] == q.materialIds;
      assert s.materialIds[..|p.materialIds|] == q.materialIds[..|p.materialIds|];
    } else {
      assert cmds[..i] == cmds;
    }
  }

  /** The vertex counts appended for the first `i` commands stay as they are. */
  lemma {:induction false} NumVertsPrefix(cmds: seq<Command>, i: nat, byName: map<string, Material>)
    requires i <= |cmds|
    ensures var s, p := ResolveFold(cmds, byName), ResolveFold(cmds[..i], byName);
            |p.faceNumVerts| <= |s.faceNumVerts| && s.faceNumVerts[..|p.faceNumVerts|] == p.faceNumVerts
  {
    if i < |cmds| {
      var init := cmds[..|cmds| - 1];
      NumVertsPrefix(init, i, byName);
      assert init[..i] == cmds[..i];
      var s, q := ResolveFold(cmds, byName), ResolveFold(init, byName);
      var p := ResolveFold(cmds[..i], byName);
      assert s.faceNumVerts[..|q.faceNumVerts|] == q.faceNumVerts;
      assert s.faceNumVerts[..|p.faceNumVerts|] == q.faceNumVerts[..|p.faceNumVerts|];
    } else {
      assert cmds[..i] == cmds;
    }
  }

  /** The face command at position `i` appends its fixed references to those collected before it. */
  lemma FaceStep(cmds: seq<Command>, i: nat, byName: map<string, Material>)
    requires i < |cmds| && cmds[i].F?
    ensures var p, q := ResolveFold(cmds[..i], byName), ResolveFold(cmds[..i + 1], byName);
            q.faces == p.faces + FixAll(cmds[i].faces, p.vcnt, p.tcnt, p.ncnt)
  {
    assert cmds[..i + 1][..i] == cmds[..i];
  }

  /** The references collected before the face command at `i`, then its own, start the final array. */
  lemma FacesAfter(cmds: seq<Command>, i: nat, byName: map<string, Material>)
    requires i < |cmds| && cmds[i].F?
    ensures var s, p := ResolveFold(cmds, byName), ResolveFold(cmds[..i], byName);
            var q := p.faces + FixAll(cmds[i].faces, p.vcnt, p.tcnt, p.ncnt);
            |q| <= |s.faces| && s.faces[..|q|] == q
  {
    FaceStep(cmds, i, byName);
    FacesPrefix(cmds, i + 1, byName);
  }

  /** The ids and vertex counts collected before the face command at `i`, then its own, start the final arrays. */
  lemma IdsAfter(cmds: seq<Command>, i: nat, byName: map<string, Material>)
    requires i < |cmds| && cmds[i].F?
    ensures var s, p := ResolveFold(cmds, byName), ResolveFold(cmds[..i], byName);
            var q := p.materialIds + Repeat(p.materialId, |cmds[i].numVerts|);
            |q| <= |s.materialIds| && s.materialIds[..|q|] == q
  {
    assert cmds[..i + 1][..i] == cmds[..i];
    IdsPrefix(cmds, i + 1, byName);
  }

  lemma NumVertsAfter(cmds: seq<Command>, i: nat, byName: map<string, Material>)
    requires i < |cmds| && cmds[i].F?
    ensures var s, p := ResolveFold(cmds, byName), ResolveFold(cmds[..i], byName);
            var q := p.faceNumVerts + cmds[i].numVerts;
            |q| <= |s.faceNumVerts| && s.faceNumVerts[..|q|] == q
  {
    assert cmds[..i + 1][..i] == cmds[..i];
    NumVertsPrefix(cmds, i + 1, byName);
  }

  /** What was appended after `p` sits at the same places in any extension of the result. */
  lemma Through<T>(s: seq<T>, p: seq<T>, xs: seq<T>)
    requires |p + xs| <= |s| && s[..|p + xs|] == p + xs
    ensures |p| + |xs| <= |s|
    ensures forall j :: 0 <= j < |xs| ==> s[|p| + j] == xs[j]
  {
    forall j | 0 <= j < |xs| ensures s[|p| + j] == xs[j] {
      assert s[..|p + xs|][|p| + j] == (p + xs)[|p| + j];
    }
  }

  /** `n` copies of `x` appended after `p` fill the places `|p|` to `|p| + n` of any extension. */
  lemma SameThrough(s: seq<nat>, p: seq<nat>, x: nat, n: nat)
    requires var q := p + Repeat(x, n); |q| <= |s| && s[..|q|] == q
    ensures |p| + n <= |s|
    ensures forall k :: |p| <= k < |p| + n ==> s[k] == x
  {
    var q := p + Repeat(x, n);
    forall k | |p| <= k < |p| + n ensures s[k] == x {
      assert s[..|q|][k] == q[k];
    }
  }

  /** References fixed after `p` sit at the same places in any extension of what they were appended to. */
  lemma FixedThrough(s: seq<Triple>, p: seq<Triple>, base: nat, ts: seq<Triple>, vcnt: nat, tcnt: nat, ncnt: nat)
    requires base == |p|
    requires var q := p + FixAll(ts, vcnt, tcnt, ncnt); |q| <= |s| && s[..|q|] == q
    ensures base + |ts| <= |s|
    ensures forall j :: 0 <= j < |ts| ==> s[base + j] == FixTriple(ts[j], vcnt, tcnt, ncnt)
  {
    Through(s, p, FixAll(ts, vcnt, tcnt, ncnt));
    forall j | 0 <= j < |ts| ensures s[base + j] == FixTriple(ts[j], vcnt, tcnt, ncnt) {
      FixAllAt(ts, vcnt, tcnt, ncnt, j);
    }
  }

  /**
   * The `j`-th reference of the face command at position `i` is fixed against the counters
   * as they stand when that command is reached: a relative reference counts back from the
   * declarations BEFORE the `f` line, whatever is declared after it.
   */
  lemma FaceRefsResolved(cmds: seq<Command>, i: nat, byName: map<string, Material>)
    requires i < |cmds| && cmds[i].F?
    ensures var s, pre := ResolveFold(cmds, byName), cmds[..i];
            var f := cmds[i];
            && RefCount(pre) + |f.faces| <= |s.faces|
            && forall j :: 0 <= j < |f.faces| ==>
                 s.faces[RefCount(pre) + j]
                 == FixTriple(f.faces[j], CountV(pre), CountVT(pre), CountVN(pre))
  {
    ResolveCounts(cmds[..i], byName);
    FaceRefsFixed(cmds, i, byName);
  }

  /** The same, against the resolver's own counters when the command is reached. */
  lemma FaceRefsFixed(cmds: seq<Command>, i: nat, byName: map<string, Material>)
    requires i < |cmds| && cmds[i].F?
    ensures var s, p := ResolveFold(cmds, byName), ResolveFold(cmds[..i], byName);
            var f := cmds[i];
            && |p.faces| + |f.faces| <= |s.faces|
            && forall j :: 0 <= j < |f.faces| ==>
                 s.faces[|p.faces| + j] == FixTriple(f.faces[j], p.vcnt, p.tcnt, p.ncnt)
  {
    FacesAfter(cmds, i, byName);
    var p := ResolveFold(cmds[..i], byName);
    FixedThrough(ResolveFold(cmds, byName).faces, p.faces, |p.faces|, cmds[i].faces, p.vcnt, p.tcnt, p.ncnt);
  }

  /**
   * Each sub-face of the face command at position `i` gets the material active when that
   * command is reached.
   */
  lemma IdsResolved(cmds: seq<Command>, i: nat, byName: map<string, Material>)
    requires i < |cmds| && cmds[i].F?
    ensures var s, pre := ResolveFold(cmds, byName), cmds[..i];
            && SubFaces(pre) + |cmds[i].numVerts| <= |s.materialIds|
            && forall k :: SubFaces(pre) <= k < SubFaces(pre) + |cmds[i].numVerts| ==>
                 s.materialIds[k] == ResolveFold(pre, byName).materialId
  {
    ResolveCounts(cmds[..i], byName);
    IdsAfter(cmds, i, byName);
    var p := ResolveFold(cmds[..i], byName);
    SameThrough(ResolveFold(cmds, byName).materialIds, p.materialIds, p.materialId, |cmds[i].numVerts|);
  }

  /** Each sub-face of the face command at position `i` keeps its own vertex count. */
  lemma NumVertsResolved(cmds: seq<Command>, i: nat, byName: map<string, Material>)
    requires i < |cmds| && cmds[i].F?
    ensures var s, pre := ResolveFold(cmds, byName), cmds[..i];
            && SubFaces(pre) + |cmds[i].numVerts| <= |s.faceNumVerts|
            && forall k :: 0 <= k < |cmds[i].numVerts| ==>
                 s.faceNumVerts[SubFaces(pre) + k] == cmds[i].numVerts[k]
  {
    ResolveCounts(cmds[..i], byName);
    NumVertsAfter(cmds, i, byName);
    var p := ResolveFold(cmds[..i], byName);
    Through(ResolveFold(cmds, byName).faceNumVerts, p.faceNumVerts, cmds[i].numVerts);
  }

  /**
   * One command of the resolver loop (src/index.js:489-528), with the two inner loops of
   * the face case: one fixed triple per reference, then one material id and one vertex
   * count per sub-face.
   */
  method ResolveCommand(s: Resolved, c: Command, byName: map<string, Material>) returns (t: Resolved)
    ensures t == ResolveStep(s, c, byName)
  {
    t := s;
    match c {
      case UseMtl(name) =>
        if name in byName {
          t := t.(materialId := byName[name].id);
        }
      case V(x, y, z) =>
        t := t.(vertices := t.vertices + [x, y, z], vcnt := t.vcnt + 1);
      case VN(x, y, z) =>
        t := t.(normals := t.normals + [x, y, z], ncnt := t.ncnt + 1);
      case VT(u, v) =>
        t := t.(texcoords := t.texcoords + [u, v], tcnt := t.tcnt + 1);
      case F(refs, numVerts) =>
        var faces := s.faces;
        for j := 0 to |refs|
          invariant faces == s.faces + FixAll(refs[..j], s.vcnt, s.tcnt, s.ncnt)
        {
          var vIdx := FixIndex(refs[j].v, s.vcnt);
          var vtIdx := FixIndex(refs[j].vt, s.tcnt);
          var vnIdx := FixIndex(refs[j].vn, s.ncnt);
          assert refs[..j + 1][..j] == refs[..j];
          faces := faces + [Triple(vIdx, vtIdx, vnIdx)];
        }
        assert refs[..|refs|] == refs;
        var materialIds, faceNumVerts := s.materialIds, s.faceNumVerts;
        for i := 0 to c.NumFNumVerts()
          invariant materialIds == s.materialIds + Repeat(s.materialId, i)
          invariant faceNumVerts == s.faceNumVerts + numVerts[..i]
        {
          assert numVerts[..i + 1] == numVerts[..i] + [numVerts[i]];
          materialIds := materialIds + [s.materialId];
          faceNumVerts := faceNumVerts + [numVerts[i]];
        }
        assert numVerts[..|numVerts|] == numVerts;
        t := t.(faces := faces, materialIds := materialIds, faceNumVerts := faceNumVerts);
      case G(_) =>
      case O(_) =>
    }
  }

  /** The resolver loop of `resume` (src/index.js:488-530). */
  method Resolve(cmds: seq<Command>, byName: map<string, Material>) returns (s: Resolved)
    ensures s == ResolveFold(cmds, byName)
  {
    s := ResolveStart;
    for i := 0 to |cmds|
      invariant s == ResolveFold(cmds[..i], byName)
    {
      assert cmds[..i + 1][..i] == cmds[..i];
      s := ResolveCommand(s, cmds[i], byName);
    }
    assert cmds[..|cmds|] == cmds;
  }
}
