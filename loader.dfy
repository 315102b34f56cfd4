/**
 * `parseObj` end to end (src/index.js:340-600): the first pass over the OBJ text, the
 * optional material library fetched through the caller's loader, and `resume`, which
 * resolves the command stream into flat arrays and segments it into shapes.
 */
module Loader {

  import opened Wrappers
  import opened Text
  import opened Conversions
  import opened Commands
  import opened Materials
  import opened Resolver
  import opened Shapes

  /**
   * The caller's `loader`: None when no loader is passed; the function gives None for a
   * library it resolves to `undefined`.
   */
  type MtlLoader = Option<string -> Option<string>>

  /** The `attrib` record `resume` resolves with (src/index.js:576-584). */
  datatype Attrib = Attrib(vertices: seq<real>, normals: seq<real>, texcoords: seq<real>,
                           faces: seq<Triple>, numFaces: nat, numFaceNumVerts: nat,
                           materialId: seq<nat>)

  datatype ObjData = ObjData(attrib: Attrib, shapes: seq<Shape>)

  datatype LoadError =
    | NoLoader(path: string)       // an `mtllib` line but no loader (src/index.js:590-592)
    | BadMaterial(error: MtlError) // the library sets a field before any `newmtl`

  /** The material table `resume` resolves `usemtl` against (src/index.js:474-477). */
  function MaterialsOf(mtlstr: Option<string>, num: Numerals): Result<map<string, Material>, LoadError> {
    if mtlstr.Some? && mtlstr.value != [] then
      var t := MtlSpec(mtlstr.value, num);
      if t.Failure? then Failure(BadMaterial(t.error)) else Success(t.value.byName)
    else Success(map[])
  }

  /** What `resume` resolves with, given the first pass and the library text, if any. */
  function ResumeSpec(p: ObjParse, mtlstr: Option<string>, num: Numerals): Result<ObjData, LoadError> {
    var mats := MaterialsOf(mtlstr, num);
    if mats.Failure? then Failure(mats.error)
    else
      var s := ResolveFold(p.cmds, mats.value);
      Success(ObjData(Attrib(s.vertices, s.normals, s.texcoords, s.faces, p.numF, p.numFaces,
                             s.materialIds),
                      Segments(p.cmds)))
  }

  /** What `parseObj(objstr, loader)` resolves with. */
  function LoadSpec(text: string, loader: MtlLoader, num: Numerals): Result<ObjData, LoadError> {
    var p := ObjSpec(text, false, num);
    if p.mtlpath.None? then ResumeSpec(p, None, num)
    else if loader.None? then Failure(NoLoader(p.mtlpath.value))
    else ResumeSpec(p, loader.value(p.mtlpath.value), num)
  }

  /** `resume(mtlstr)` (src/index.js:474-588). */
  method Resume(p: ObjParse, mtlstr: Option<string>, num: Numerals) returns (r: Result<ObjData, LoadError>)
    ensures r == ResumeSpec(p, mtlstr, num)
  {
    var byName: map<string, Material> := map[];
    if mtlstr.Some? && mtlstr.value != [] {
      var t := ParseMtl(mtlstr.value, num);
      if t.Failure? {
        return Failure(BadMaterial(t.error));
      }
      byName := t.value.byName;
    }
    var s := Resolve(p.cmds, byName);
    var shapes := Segment(p.cmds);
    r := Success(ObjData(Attrib(s.vertices, s.normals, s.texcoords, s.faces, p.numF, p.numFaces,
                                s.materialIds),
                         shapes));
  }

  /** `parseObj(objstr, loader)` (src/index.js:340-600). */
  method Load(text: string, loader: MtlLoader, num: Numerals) returns (r: Result<ObjData, LoadError>)
    ensures r == LoadSpec(text, loader, num)
  {
    var p := ParseObj(text, false, num);
    if p.mtlpath.None? {
      r := Resume(p, None, num);
    } else if loader.None? {
      r := Failure(NoLoader(p.mtlpath.value));
    } else {
      var mtldata := loader.value(p.mtlpath.value);
      r := Resume(p, mtldata, num);
    }
  }

  /**
   * The counts `resume` reports agree with its arrays, given first-pass totals that are
   * those of the stream: `numFaces` is the length of the face array, `numFaceNumVerts`
   * that of the material-id array; the vertex, normal and texture arrays hold whole tuples.
   */
  lemma ResumeTotals(p: ObjParse, mtlstr: Option<string>, num: Numerals)
    requires p.numF == RefCount(p.cmds) && p.numFaces == SubFaces(p.cmds)
    requires ResumeSpec(p, mtlstr, num).Success?
    ensures var a := ResumeSpec(p, mtlstr, num).value.attrib;
            && a.numFaces == |a.faces|
            && a.numFaceNumVerts == |a.materialId|
            && |a.vertices| % 3 == 0 && |a.normals| % 3 == 0 && |a.texcoords| % 2 == 0
  {
    ResolveCounts(p.cmds, MaterialsOf(mtlstr, num).value);
  }

  /** Whatever `parseObj` resolves with has counts that agree with its arrays. */
  lemma LoadTotals(text: string, loader: MtlLoader, num: Numerals)
    ensures var r := LoadSpec(text, loader, num);
            r.Success? ==>
              var a := r.value.attrib;
              && a.numFaces == |a.faces|
              && a.numFaceNumVerts == |a.materialId|
              && |a.vertices| % 3 == 0 && |a.normals| % 3 == 0 && |a.texcoords| % 2 == 0
  {
    var p := ObjSpec(text, false, num);
    ObjTotals(text, false, num);
    if p.mtlpath.None? {
      ResumeTotals(p, None, num);
    } else if loader.Some? && LoadSpec(text, loader, num).Success? {
      ResumeTotals(p, loader.value(p.mtlpath.value), num);
    }
  }

  /**
   * The shapes `resume` reports tile the face commands of the stream, each named after the
   * last `g`/`o` before its faces.
   */
  lemma ResumeShapes(p: ObjParse, mtlstr: Option<string>, num: Numerals)
    requires ResumeSpec(p, mtlstr, num).Success?
    ensures var shapes := ResumeSpec(p, mtlstr, num).value.shapes;
            && Tiles(shapes, CountF(SegsOf(p.cmds)))
            && forall k, f {:trigger shapes[k], Groups(SegsOf(p.cmds))[f]} ::
                 (0 <= k < |shapes| && shapes[k].offset <= f < shapes[k].offset + shapes[k].length
                  && f < CountF(SegsOf(p.cmds))) ==> shapes[k].name == Groups(SegsOf(p.cmds))[f]
  {
    SegmentTiles(SegsOf(p.cmds));
    SegmentNames(SegsOf(p.cmds));
  }

  /** Without a material library, or with an empty one, every sub-face gets material 0. */
  lemma DefaultIds(p: ObjParse, mtlstr: Option<string>, num: Numerals)
    requires mtlstr.None? || mtlstr == Some([])
    ensures ResumeSpec(p, mtlstr, num).Success?
    ensures forall k :: 0 <= k < |ResumeSpec(p, mtlstr, num).value.attrib.materialId|
                        ==> ResumeSpec(p, mtlstr, num).value.attrib.materialId[k] == 0
  {
    assert MaterialsOf(mtlstr, num) == Success(map[]);
    NoMaterialIds(p.cmds);
    assert ResumeSpec(p, mtlstr, num).value.attrib.materialId == ResolveFold(p.cmds, map[]).materialIds;
  }

  /**
   * `parseObj` fails exactly when the text names a library and no loader is passed, or the
   * library sets a field before its first `newmtl`; otherwise it gives the resolved data.
   */
  lemma LoadOutcome(text: string, loader: MtlLoader, num: Numerals)
    ensures var p, r := ObjSpec(text, false, num), LoadSpec(text, loader, num);
            && (r.Failure? && r.error.NoLoader? <==> p.mtlpath.Some? && loader.None?)
            && (p.mtlpath.Some? && loader.None? ==> r == Failure(NoLoader(p.mtlpath.value)))
            && (r.Failure? && r.error.BadMaterial? <==>
                  p.mtlpath.Some? && loader.Some? && MaterialsOf(loader.value(p.mtlpath.value), num).Failure?)
            && (p.mtlpath.None? ==> r.Success?)
  {
  }
}
