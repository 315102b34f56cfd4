/**
 * The material table builder `parseMtl` of the OBJ loader (src/index.js:75-237, 392-472):
 * `newmtl` seals the open material into the table and opens a new one with the next id;
 * every other known directive overwrites one field of the open material.
 */
module Materials {

  import opened Wrappers
  import opened Text
  import opened Conversions

  /** A colour triple as the source's three-element arrays hold it. */
  datatype Vec3 = Vec3(x: real, y: real, z: real)

  /**
   * The `Material` record (src/index.js:75-97): an id fixed at creation and seventeen
   * fields, each `undefined` (None) until a directive sets it.
   */
  datatype Material = Material(
    id: nat,
    ka: Option<Vec3>, kd: Option<Vec3>, ks: Option<Vec3>, kt: Option<Vec3>,
    ni: Option<real>, ke: Option<Vec3>, ns: Option<real>, illum: Option<int>,
    d: Option<real>, tr: Option<real>,
    mapKa: Option<string>, mapKd: Option<string>, mapKs: Option<string>, mapNs: Option<string>,
    mapBump: Option<string>, mapD: Option<string>, disp: Option<string>)

  /** The settable fields of a material, in declaration order. */
  datatype Field =
    | FKa | FKd | FKs | FKt | FNi | FKe | FNs | FIllum | FD | FTr
    | FMapKa | FMapKd | FMapKs | FMapNs | FMapBump | FMapD | FDisp

  /** The value one field holds, whatever its type. */
  datatype Value =
    | VecValue(vec: Option<Vec3>)
    | RealValue(num: Option<real>)
    | IntValue(count: Option<int>)
    | TextValue(text: Option<string>)
  {
    predicate Unset() {
      match this
      case VecValue(v) => v.None?
      case RealValue(v) => v.None?
      case IntValue(v) => v.None?
      case TextValue(v) => v.None?
    }
  }

  /** The value of field `f` of `m`. */
  function Get(m: Material, f: Field): Value {
    match f
    case FKa => VecValue(m.ka)
    case FKd => VecValue(m.kd)
    case FKs => VecValue(m.ks)
    case FKt => VecValue(m.kt)
    case FNi => RealValue(m.ni)
    case FKe => VecValue(m.ke)
    case FNs => RealValue(m.ns)
    case FIllum => IntValue(m.illum)
    case FD => RealValue(m.d)
    case FTr => RealValue(m.tr)
    case FMapKa => TextValue(m.mapKa)
    case FMapKd => TextValue(m.mapKd)
    case FMapKs => TextValue(m.mapKs)
    case FMapNs => TextValue(m.mapNs)
    case FMapBump => TextValue(m.mapBump)
    case FMapD => TextValue(m.mapD)
    case FDisp => TextValue(m.disp)
  }

  /** `new Material(id)` (src/index.js:77-96): the id, and every other field unset. */
  function NewMaterial(id: nat): Material {
    Material(id, None, None, None, None, None, None, None, None, None, None,
             None, None, None, None, None, None, None)
  }

  /** A new material holds its id and no field is set. */
  lemma NewMaterialUnset(id: nat)
    ensures NewMaterial(id).id == id
    ensures forall f :: Get(NewMaterial(id), f).Unset()
  {
    var m := NewMaterial(id);
    forall f
      ensures Get(m, f).Unset()
    {
      match f
      case FKa =>
      case FKd =>
      case FKs =>
      case FKt =>
      case FNi =>
      case FKe =>
      case FNs =>
      case FIllum =>
      case FD =>
      case FTr =>
      case FMapKa =>
      case FMapKd =>
      case FMapKs =>
      case FMapNs =>
      case FMapBump =>
      case FMapD =>
      case FDisp =>
    }
  }

  /** The cases of `switch (tokens[0])` in `parseMtl` (src/index.js:404-465). */
  datatype Directive =
    | DNewmtl | DKa | DKd | DKs | DKt | DKe | DNi | DNs | DIllum | DD | DTr
    | DMapKa | DMapKd | DMapKs | DMapNs | DMapBump | DMapD | DDisp | DOther
  {
    /** A directive that writes a field of the open material. */
    predicate Sets() {
      this != DNewmtl && this != DOther
    }
  }

  /** The keywords `parseMtl` acts on, spelled as its `case` labels spell them. */
  const MtlKeywords: set<string> :=
    {"newmtl", "Ka", "Kd", "Ks", "Kt", "Ke", "Ni", "Ns", "illum", "d", "Tr",
     "map_Ka", "map_Kd", "map_Ks", "map_Ns", "map_bump", "bump", "map_d", "disp"}

  /** The case a keyword selects; `bump` shares the case of `map_bump`. */
  function DirectiveOf(kw: string): Directive {
    if kw == "newmtl" then DNewmtl
    else if kw == "Ka" then DKa
    else if kw == "Kd" then DKd
    else if kw == "Ks" then DKs
    else if kw == "Kt" then DKt
    else if kw == "Ke" then DKe
    else if kw == "Ni" then DNi
    else if kw == "Ns" then DNs
    else if kw == "illum" then DIllum
    else if kw == "d" then DD
    else if kw == "Tr" then DTr
    else if kw == "map_Ka" then DMapKa
    else if kw == "map_Kd" then DMapKd
    else if kw == "map_Ks" then DMapKs
    else if kw == "map_Ns" then DMapNs
    else if kw == "map_bump" || kw == "bump" then DMapBump
    else if kw == "map_d" then DMapD
    else if kw == "disp" then DDisp
    else DOther
  }

  /**
   * A keyword selects no case exactly when it is not one of the directive keywords; `bump`
   * and `map_bump` select the same case, and only `Tr` selects the `Tr` case.
   */
  lemma DirectiveKeywords(kw: string)
    ensures DirectiveOf(kw) == DOther <==> kw !in MtlKeywords
    ensures DirectiveOf(kw) == DMapBump <==> kw == "map_bump" || kw == "bump"
    ensures DirectiveOf(kw) == DTr <==> kw == "Tr"
  {
  }

  /** The field a directive writes: `Tr` writes the dissolve `d`, never `tr`. */
  function Target(dir: Directive): Option<Field> {
    match dir
    case DNewmtl => None
    case DKa => Some(FKa)
    case DKd => Some(FKd)
    case DKs => Some(FKs)
    case DKt => Some(FKt)
    case DKe => Some(FKe)
    case DNi => Some(FNi)
    case DNs => Some(FNs)
    case DIllum => Some(FIllum)
    case DD => Some(FD)
    case DTr => Some(FD)
    case DMapKa => Some(FMapKa)
    case DMapKd => Some(FMapKd)
    case DMapKs => Some(FMapKs)
    case DMapNs => Some(FMapNs)
    case DMapBump => Some(FMapBump)
    case DMapD => Some(FMapD)
    case DDisp => Some(FDisp)
    case DOther => None
  }

  /** The three numbers after the keyword, as `[parseFloat(tokens[1]), …]` reads them. */
  function Vec3Of(tokens: seq<string>, pf: string -> real): Vec3 {
    Vec3(pf(Arg(tokens, 1)), pf(Arg(tokens, 2)), pf(Arg(tokens, 3)))
  }

  /** One directive applied to the open material (src/index.js:413-464). */
  function Apply(m: Material, dir: Directive, tokens: seq<string>, num: Numerals): Material {
    var pf := num.parseFloat;
    match dir
    case DKa => m.(ka := Some(Vec3Of(tokens, pf)))
    case DKd => m.(kd := Some(Vec3Of(tokens, pf)))
    case DKs => m.(ks := Some(Vec3Of(tokens, pf)))
    case DKt => m.(kt := Some(Vec3Of(tokens, pf)))
    case DKe => m.(ke := Some(Vec3Of(tokens, pf)))
    case DNi => m.(ni := Some(pf(Arg(tokens, 1))))
    case DNs => m.(ns := Some(pf(Arg(tokens, 1))))
    case DIllum => m.(illum := Some(num.parseInt(Arg(tokens, 1))))
    case DD => m.(d := Some(pf(Arg(tokens, 1))))
    case DTr => m.(d := Some(1.0 - pf(Arg(tokens, 1))))
    case DMapKa => m.(mapKa := Some(NameOf(tokens)))
    case DMapKd => m.(mapKd := Some(NameOf(tokens)))
    case DMapKs => m.(mapKs := Some(NameOf(tokens)))
    case DMapNs => m.(mapNs := Some(NameOf(tokens)))
    case DMapBump => m.(mapBump := Some(NameOf(tokens)))
    case DMapD => m.(mapD := Some(NameOf(tokens)))
    case DDisp => m.(disp := Some(NameOf(tokens)))
    case DNewmtl => m
    case DOther => m
  }

  /**
   * A directive keeps the id and every field but its target: so a directive that sets
   * nothing leaves the material as it is.
   */
  lemma ApplyFrame(m: Material, dir: Directive, tokens: seq<string>, num: Numerals)
    ensures Apply(m, dir, tokens, num).id == m.id
    ensures forall f :: Some(f) != Target(dir) ==> Get(Apply(m, dir, tokens, num), f) == Get(m, f)
    ensures Target(dir).None? ==> Apply(m, dir, tokens, num) == m
  {
    var r := Apply(m, dir, tokens, num);
    forall f | Some(f) != Target(dir)
      ensures Get(r, f) == Get(m, f)
    {
      match dir
      case DKa =>
      case DKd =>
      case DKs =>
      case DKt =>
      case DKe =>
      case DNi =>
      case DNs =>
      case DIllum =>
      case DD =>
      case DTr =>
      case DMapKa =>
      case DMapKd =>
      case DMapKs =>
      case DMapNs =>
      case DMapBump =>
      case DMapD =>
      case DDisp =>
      case DNewmtl =>
      case DOther =>
    }
  }

  /** A directive that writes a field leaves it set. */
  lemma ApplySets(m: Material, dir: Directive, tokens: seq<string>, num: Numerals)
    requires Target(dir).Some?
    ensures !Get(Apply(m, dir, tokens, num), Target(dir).value).Unset()
  {
  }

  /** `Tr v` stores `1 - v` as the dissolve; `d v` stores `v`; neither touches `tr`. */
  lemma Dissolve(m: Material, tokens: seq<string>, num: Numerals)
    ensures Apply(m, DTr, tokens, num).d == Some(1.0 - num.parseFloat(Arg(tokens, 1)))
    ensures Apply(m, DD, tokens, num).d == Some(num.parseFloat(Arg(tokens, 1)))
    ensures Apply(m, DTr, tokens, num).tr == m.tr && Apply(m, DD, tokens, num).tr == m.tr
  {
  }

  /**
   * Two directives writing the same field: the later one wins, whatever the earlier one wrote
   * (`d` after `Tr`, `Tr` after `d`, `bump` after `map_bump`, a repeated `Kd`, …).
   */
  lemma LaterWins(m: Material, d1: Directive, t1: seq<string>, d2: Directive, t2: seq<string>,
                  num: Numerals)
    requires Target(d1).Some? && Target(d1) == Target(d2)
    ensures Apply(Apply(m, d1, t1, num), d2, t2, num) == Apply(m, d2, t2, num)
  {
    match d2
    case DKa =>
    case DKd =>
    case DKs =>
    case DKt =>
    case DKe =>
    case DNi =>
    case DNs =>
    case DIllum =>
    case DD =>
    case DTr =>
    case DMapKa =>
    case DMapKd =>
    case DMapKs =>
    case DMapNs =>
    case DMapBump =>
    case DMapD =>
    case DDisp =>
  }

  /**
   * The state of `parseMtl`: the open material `mat` and its name `matname` (the name is
   * `undefined` in the source until the first `newmtl`; it is never read before), the table
   * `matmap` and list `matarray` of sealed materials, and the next id to hand out.
   */
  datatype MtlState = MtlState(mat: Option<Material>, matname: string,
                               matmap: map<string, Material>, matarray: seq<Material>,
                               nextMatId: nat)

  /** What `parseMtl` reports when a directive comes before any `newmtl`: the source
   *  dereferences `undefined` there and throws. */
  datatype MtlError = DirectiveBeforeNewmtl(line: nat, keyword: string)

  /** The state before the first line. */
  const MtlStart: MtlState := MtlState(None, [], map[], [], 0)

  /** `matmap.set(matname, mat); matarray.push(mat)` when a material is open. */
  function SealOpen(st: MtlState): MtlState {
    if st.mat.Some? then
      st.(matmap := st.matmap[st.matname := st.mat.value], matarray := st.matarray + [st.mat.value])
    else st
  }

  /** One tokenized line, the `line`-th of the text (src/index.js:404-465). */
  function MtlDirective(st: MtlState, dir: Directive, tokens: seq<string>, line: nat,
                        num: Numerals): Result<MtlState, MtlError>
  {
    if dir == DNewmtl then
      Success(SealOpen(st).(mat := Some(NewMaterial(st.nextMatId)), matname := NameOf(tokens),
                            nextMatId := st.nextMatId + 1))
    else if dir == DOther then Success(st)
    else if st.mat.None? then Failure(DirectiveBeforeNewmtl(line, Keyword(tokens)))
    else Success(st.(mat := Some(Apply(st.mat.value, dir, tokens, num))))
  }

  /**
   * A line of the material text as the loop sees it: blank or a comment (src/index.js:398-403),
   * or its tokens with the directive their keyword selects.
   */
  datatype Line = Blank | Tokens(dir: Directive, tokens: seq<string>)

  /** One line of the text, tokenized and classified. */
  function LineOf(text: string): Line {
    match Tokenize(text)
    case None => Blank
    case Some(tokens) => Tokens(DirectiveOf(Keyword(tokens)), tokens)
  }

  /** `f` applied to every element, in order. */
  function MapSeq<A, B>(xs: seq<A>, f: A -> B): (r: seq<B>)
    ensures |r| == |xs|
  {
    if xs == [] then [] else MapSeq(xs[..|xs| - 1], f) + [f(xs[|xs| - 1])]
  }

  /** The `i`-th element of the map is `f` of the `i`-th element. */
  lemma {:induction false} MapSeqAt<A, B>(xs: seq<A>, f: A -> B, i: nat)
    requires i < |xs|
    ensures MapSeq(xs, f)[i] == f(xs[i])
  {
    if i < |xs| - 1 {
      MapSeqAt(xs[..|xs| - 1], f, i);
    }
  }

  /** Every line of a text, tokenized and classified. */
  function LinesOf(lines: seq<string>): (r: seq<Line>)
    ensures |r| == |lines|
  {
    MapSeq(lines, LineOf)
  }

  /** The `i`-th classified line is the `i`-th line, classified. */
  lemma LinesOfAt(lines: seq<string>, i: nat)
    requires i < |lines|
    ensures LinesOf(lines)[i] == LineOf(lines[i])
  {
    MapSeqAt(lines, LineOf, i);
  }

  /** One line, the `line`-th of the text. */
  function MtlLine(st: MtlState, l: Line, line: nat, num: Numerals): Result<MtlState, MtlError> {
    match l
    case Blank => Success(st)
    case Tokens(dir, tokens) => MtlDirective(st, dir, tokens, line, num)
  }

  /** The loop's next step after `r`: a failure stops the loop. */
  function MtlNext(r: Result<MtlState, MtlError>, l: Line, line: nat, num: Numerals)
    : Result<MtlState, MtlError>
  {
    if r.Failure? then r else MtlLine(r.value, l, line, num)
  }

  /** The loop of `parseMtl` over the lines. */
  function MtlFold(ls: seq<Line>, num: Numerals): Result<MtlState, MtlError> {
    if ls == [] then Success(MtlStart)
    else MtlNext(MtlFold(ls[..|ls| - 1], num), ls[|ls| - 1], |ls| - 1, num)
  }

  /** The materials of a library, by name and by id. */
  datatype MaterialTable = MaterialTable(byName: map<string, Material>, list: seq<Material>)

  /** The loop's outcome, then the final seal (src/index.js:468-471). */
  function MtlResult(r: Result<MtlState, MtlError>): Result<MaterialTable, MtlError> {
    if r.Failure? then Failure(r.error)
    else
      var s := SealOpen(r.value);
      Success(MaterialTable(s.matmap, s.matarray))
  }

  /** `parseMtl` on a whole text. */
  function MtlSpec(text: string, num: Numerals): Result<MaterialTable, MtlError> {
    MtlResult(MtlFold(LinesOf(Split(text, {'\n'})), num))
  }

  /** The directive a line holds, if any. */
  function LineDirective(l: Line): Directive {
    if l.Blank? then DOther else l.dir
  }

  /** The names of the `newmtl` lines, in order. */
  function Names(ls: seq<Line>): seq<string> {
    if ls == [] then []
    else Names(ls[..|ls| - 1])
         + (if LineDirective(ls[|ls| - 1]) == DNewmtl then [NameOf(ls[|ls| - 1].tokens)] else [])
  }

  /** The position of the last occurrence of `n` in `names`. */
  function LastIndex(names: seq<string>, n: string): (r: nat)
    requires n in names
    ensures r < |names| && names[r] == n
    ensures forall j :: r < j < |names| ==> names[j] != n
  {
    if names[|names| - 1] == n then |names| - 1 else LastIndex(names[..|names| - 1], n)
  }

  /**
   * A table built from the `newmtl` names `names`: one material per name with ids 0, 1, 2, …
   * in order, keyed by exactly those names, each name mapping to the LAST material opened
   * under it.
   */
  ghost predicate Table(byName: map<string, Material>, list: seq<Material>, names: seq<string>) {
    && |list| == |names|
    && (forall k :: 0 <= k < |list| ==> list[k].id == k)
    && (forall n :: n in byName <==> n in names)
    && (forall n :: n in names ==> n in byName && byName[n] == list[LastIndex(names, n)])
  }

  lemma TableEmpty()
    ensures Table(map[], [], [])
  {
  }

  /** Sealing the material with the next id under a name keeps the table's shape. */
  lemma TablePush(byName: map<string, Material>, list: seq<Material>, names: seq<string>,
                  name: string, m: Material)
    requires Table(byName, list, names) && m.id == |list|
    ensures Table(byName[name := m], list + [m], names + [name])
  {
    var names' := names + [name];
    var list' := list + [m];
    forall n | n in names'
      ensures byName[name := m][n] == list'[LastIndex(names', n)]
    {
      if n != name {
        assert names'[..|names'| - 1] == names;
        assert list'[LastIndex(names, n)] == list[LastIndex(names, n)];
      }
    }
    forall n
      ensures n in byName[name := m] <==> n in names'
    {
      if n in names' && n != name {
        var k :| 0 <= k < |names'| && names'[k] == n;
        assert names[k] == n;
      }
    }
  }

  /**
   * What the loop keeps while no error occurred: one id handed out per `newmtl` line so
   * far; a material is open exactly when there was one, opened by the last of them with the
   * last id; every earlier one is sealed in the table.
   */
  ghost predicate MtlInvariant(st: MtlState, names: seq<string>) {
    && st.nextMatId == |names|
    && (st.mat.None? <==> names == [])
    && (st.mat.None? ==> st.matarray == [] && st.matmap == map[])
    && (st.mat.Some? ==>
          && st.matname == names[|names| - 1] && st.mat.value.id == |names| - 1
          && Table(st.matmap, st.matarray, names[..|names| - 1]))
  }

  /** One step of the loop keeps the invariant. */
  lemma MtlLineInvariant(st: MtlState, names: seq<string>, l: Line, line: nat, num: Numerals)
    requires MtlInvariant(st, names)
    requires MtlLine(st, l, line, num).Success?
    ensures MtlInvariant(MtlLine(st, l, line, num).value,
                         names + (if LineDirective(l) == DNewmtl then [NameOf(l.tokens)] else []))
  {
    if LineDirective(l) == DNewmtl {
      var names' := names + [NameOf(l.tokens)];
      assert names'[..|names'| - 1] == names;
      if st.mat.Some? {
        TablePush(st.matmap, st.matarray, names[..|names| - 1], st.matname, st.mat.value);
        assert names[..|names| - 1] + [st.matname] == names;
      } else {
        TableEmpty();
      }
    } else {
      assert names + [] == names;
      if l.Tokens? && l.dir.Sets() {
        ApplyFrame(st.mat.value, l.dir, l.tokens, num);
      }
    }
  }

  /** The whole loop keeps the invariant for the `newmtl` names of the lines it has read. */
  lemma {:induction false} MtlFoldInvariant(ls: seq<Line>, num: Numerals)
    requires MtlFold(ls, num).Success?
    ensures MtlInvariant(MtlFold(ls, num).value, Names(ls))
  {
    if ls != [] {
      var init := ls[..|ls| - 1];
      MtlFoldInvariant(init, num);
      MtlLineInvariant(MtlFold(init, num).value, Names(init), ls[|ls| - 1], |ls| - 1, num);
    }
  }

  /**
   * A library that builds has one material per `newmtl` line, with ids 0, 1, 2, … in line
   * order (the last one sealed at the end of the text), and maps each name to the last
   * material opened under it.
   */
  lemma MtlTable(ls: seq<Line>, num: Numerals)
    requires MtlFold(ls, num).Success?
    ensures var t := MtlResult(MtlFold(ls, num));
            t.Success? && Table(t.value.byName, t.value.list, Names(ls))
  {
    MtlFoldInvariant(ls, num);
    var st := MtlFold(ls, num).value;
    var names := Names(ls);
    if st.mat.Some? {
      TablePush(st.matmap, st.matarray, names[..|names| - 1], st.matname, st.mat.value);
      assert names[..|names| - 1] + [st.matname] == names;
    } else {
      TableEmpty();
    }
  }

  /**
   * `parseMtl` on the lines of a text: it fails exactly when a line sets a field before any
   * `newmtl` line, and otherwise builds the table of the text's `newmtl` names.
   */
  lemma MtlOutcome(ls: seq<Line>, num: Numerals)
    ensures var r := MtlResult(MtlFold(ls, num));
            && (r.Failure? <==>
                  exists i :: 0 <= i < |ls| && LineDirective(ls[i]).Sets() && NoNewmtlBefore(ls, i))
            && (r.Success? ==> Table(r.value.byName, r.value.list, Names(ls)))
  {
    MtlFailure(ls, num);
    if MtlFold(ls, num).Success? {
      MtlTable(ls, num);
    }
  }

  /** No `newmtl` line among the first `i` lines. */
  predicate NoNewmtlBefore(ls: seq<Line>, i: int)
    requires 0 <= i <= |ls|
  {
    forall j :: 0 <= j < i ==> LineDirective(ls[j]) != DNewmtl
  }

  /** With no `newmtl` read, no material is open. */
  lemma {:induction false} NoNewmtlNoOpen(ls: seq<Line>, num: Numerals)
    requires NoNewmtlBefore(ls, |ls|)
    requires MtlFold(ls, num).Success?
    ensures MtlFold(ls, num).value.mat.None?
  {
    if ls != [] {
      var init := ls[..|ls| - 1];
      assert NoNewmtlBefore(init, |init|) by {
        forall j | 0 <= j < |init| ensures LineDirective(init[j]) != DNewmtl {
          assert init[j] == ls[j];
        }
      }
      NoNewmtlNoOpen(init, num);
    }
  }

  /** No `newmtl` names read means no `newmtl` line read. */
  lemma {:induction false} NamesEmpty(ls: seq<Line>)
    requires Names(ls) == []
    ensures NoNewmtlBefore(ls, |ls|)
  {
    if ls != [] {
      var init := ls[..|ls| - 1];
      NamesEmpty(init);
      assert forall j :: 0 <= j < |init| ==> init[j] == ls[j];
    }
  }

  /** Dropping the last line changes neither the other lines nor which prefixes hold no `newmtl`. */
  lemma NoNewmtlPrefix(ls: seq<Line>)
    requires ls != []
    ensures forall j :: 0 <= j < |ls| - 1 ==> ls[..|ls| - 1][j] == ls[j]
    ensures forall i :: 0 <= i <= |ls| - 1 ==>
              (NoNewmtlBefore(ls[..|ls| - 1], i) <==> NoNewmtlBefore(ls, i))
  {
    var init := ls[..|ls| - 1];
    assert forall j :: 0 <= j < |init| ==> init[j] == ls[j];
  }

  /**
   * The library fails exactly when some line sets a field before any `newmtl` line; the
   * error names the first such line and its keyword.
   */
  lemma {:induction false} MtlFailure(ls: seq<Line>, num: Numerals)
    ensures MtlFold(ls, num).Failure? <==>
            exists i :: 0 <= i < |ls| && LineDirective(ls[i]).Sets() && NoNewmtlBefore(ls, i)
    ensures MtlFold(ls, num).Failure? ==>
            var e := MtlFold(ls, num).error;
            && e.line < |ls| && LineDirective(ls[e.line]).Sets() && NoNewmtlBefore(ls, e.line)
            && e.keyword == Keyword(ls[e.line].tokens)
            && forall j :: 0 <= j < e.line ==> !LineDirective(ls[j]).Sets()
  {
    if ls != [] {
      var n := |ls|;
      var init := ls[..n - 1];
      MtlFailure(init, num);
      NoNewmtlPrefix(ls);
      var r := MtlFold(init, num);
      if r.Success? {
        var last := ls[n - 1];
        if LineDirective(last).Sets() && NoNewmtlBefore(ls, n - 1) {
          NoNewmtlNoOpen(init, num);
        } else if MtlFold(ls, num).Failure? {
          MtlFoldInvariant(init, num);
          NamesEmpty(init);
          assert false;
        }
      }
    }
  }

  /** One more line is one more step of the loop. */
  lemma MtlFoldLine(ls: seq<Line>, i: nat, num: Numerals)
    requires i < |ls|
    ensures MtlFold(ls[..i + 1], num) == MtlNext(MtlFold(ls[..i], num), ls[i], i, num)
  {
    assert ls[..i + 1][..i] == ls[..i];
  }

  /** Once the loop has failed, the rest of the text does not matter. */
  lemma {:induction false} FailureSticks(ls: seq<Line>, i: nat, num: Numerals)
    requires i <= |ls| && MtlFold(ls[..i], num).Failure?
    ensures MtlFold(ls, num) == MtlFold(ls[..i], num)
    decreases |ls| - i
  {
    if i < |ls| {
      MtlFoldLine(ls, i, num);
      FailureSticks(ls, i + 1, num);
    } else {
      assert ls[..i] == ls;
    }
  }

  /**
   * The value a writing directive stores in its field, read off its tokens
   * (src/index.js:413-464): three numbers, one number, `1 - v` for `Tr`, an integer, or the
   * file name.
   */
  function Written(dir: Directive, tokens: seq<string>, num: Numerals): Value
    requires Target(dir).Some?
  {
    var pf := num.parseFloat;
    match dir
    case DKa | DKd | DKs | DKt | DKe => VecValue(Some(Vec3Of(tokens, pf)))
    case DNi | DNs | DD => RealValue(Some(pf(Arg(tokens, 1))))
    case DTr => RealValue(Some(1.0 - pf(Arg(tokens, 1))))
    case DIllum => IntValue(Some(num.parseInt(Arg(tokens, 1))))
    case DMapKa | DMapKd | DMapKs | DMapNs | DMapBump | DMapD | DDisp => TextValue(Some(NameOf(tokens)))
  }

  /** A writing directive leaves in its field exactly the value it reads off its tokens. */
  lemma ApplyWrites(m: Material, dir: Directive, tokens: seq<string>, num: Numerals)
    requires Target(dir).Some?
    ensures Get(Apply(m, dir, tokens, num), Target(dir).value) == Written(dir, tokens, num)
  {
    match dir
    case DKa =>
    case DKd =>
    case DKs =>
    case DKt =>
    case DKe =>
    case DNi =>
    case DNs =>
    case DIllum =>
    case DD =>
    case DTr =>
    case DMapKa =>
    case DMapKd =>
    case DMapKs =>
    case DMapNs =>
    case DMapBump =>
    case DMapD =>
    case DDisp =>
  }

  /** One line applied to the open material. */
  function ApplyLine(m: Material, l: Line, num: Numerals): Material {
    if l.Blank? then m else Apply(m, l.dir, l.tokens, num)
  }

  /** The lines of a block applied to a material in order. */
  function ApplyLines(m: Material, ps: seq<Line>, num: Numerals): Material {
    if ps == [] then m else ApplyLine(ApplyLines(m, ps[..|ps| - 1], num), ps[|ps| - 1], num)
  }

  /** The line is a directive that writes field `f`. */
  predicate Writes(l: Line, f: Field) {
    l.Tokens? && Target(l.dir) == Some(f)
  }

  /** Field `f` after the lines `ps`: what the last line writing it wrote, or else `init`. */
  function FieldOf(init: Value, ps: seq<Line>, f: Field, num: Numerals): Value {
    if ps == [] then init
    else if Writes(ps[|ps| - 1], f) then Written(ps[|ps| - 1].dir, ps[|ps| - 1].tokens, num)
    else FieldOf(init, ps[..|ps| - 1], f, num)
  }

  /** When line `i` is the last to write `f`, the field holds what line `i` wrote. */
  lemma {:induction false} FieldOfLast(init: Value, ps: seq<Line>, f: Field, num: Numerals, i: nat)
    requires i < |ps| && Writes(ps[i], f)
    requires forall j :: i < j < |ps| ==> !Writes(ps[j], f)
    ensures FieldOf(init, ps, f, num) == Written(ps[i].dir, ps[i].tokens, num)
    decreases |ps|
  {
    if i < |ps| - 1 {
      var front := ps[..|ps| - 1];
      assert forall j :: i <= j < |front| ==> front[j] == ps[j];
      FieldOfLast(init, front, f, num, i);
    }
  }

  /** When no line writes `f`, the field keeps `init`. */
  lemma {:induction false} FieldOfNone(init: Value, ps: seq<Line>, f: Field, num: Numerals)
    requires forall j :: 0 <= j < |ps| ==> !Writes(ps[j], f)
    ensures FieldOf(init, ps, f, num) == init
    decreases |ps|
  {
    if ps != [] {
      var front := ps[..|ps| - 1];
      assert forall j :: 0 <= j < |front| ==> front[j] == ps[j];
      FieldOfNone(init, front, f, num);
    }
  }

  /** Applying a block keeps the id, and each field ends as FieldOf says. */
  lemma {:induction false} ApplyLinesField(m: Material, ps: seq<Line>, f: Field, num: Numerals)
    ensures ApplyLines(m, ps, num).id == m.id
    ensures Get(ApplyLines(m, ps, num), f) == FieldOf(Get(m, f), ps, f, num)
    decreases |ps|
  {
    if ps != [] {
      var front, l := ps[..|ps| - 1], ps[|ps| - 1];
      ApplyLinesField(m, front, f, num);
      if l.Tokens? {
        var before := ApplyLines(m, front, num);
        ApplyFrame(before, l.dir, l.tokens, num);
        if Writes(l, f) {
          ApplyWrites(before, l.dir, l.tokens, num);
        }
      }
    }
  }

  /**
   * The blocks after one more line: a `newmtl` line opens an empty block, and any other line
   * joins the last block (a line before the first `newmtl` joins none).
   */
  function NextBlocks(bs: seq<seq<Line>>, l: Line): seq<seq<Line>> {
    if LineDirective(l) == DNewmtl then bs + [[]]
    else if bs == [] then bs
    else bs[..|bs| - 1] + [bs[|bs| - 1] + [l]]
  }

  /** The lines after each `newmtl` line up to the next one: the block of each material. */
  function Blocks(ls: seq<Line>): seq<seq<Line>> {
    if ls == [] then [] else NextBlocks(Blocks(ls[..|ls| - 1]), ls[|ls| - 1])
  }

  /** One more line is one more step of the blocks. */
  lemma BlocksLine(ls: seq<Line>, i: nat)
    requires i < |ls|
    ensures Blocks(ls[..i + 1]) == NextBlocks(Blocks(ls[..i]), ls[i])
  {
    assert ls[..i + 1][..i] == ls[..i];
  }

  /** There is one block per `newmtl` name. */
  lemma {:induction false} BlocksNames(ls: seq<Line>)
    ensures |Blocks(ls)| == |Names(ls)|
  {
    if ls != [] {
      BlocksNames(ls[..|ls| - 1]);
    }
  }

  /**
   * What the materials of the loop's state hold: the `k`-th sealed material, and the open
   * one as the last, is a new material with id `k` with the lines of block `k` applied.
   */
  ghost predicate Contents(st: MtlState, bs: seq<seq<Line>>, num: Numerals) {
    && st.nextMatId == |bs|
    && (st.mat.None? <==> bs == [])
    && (st.mat.None? ==> st.matarray == [])
    && (st.mat.Some? ==>
          && |st.matarray| == |bs| - 1
          && st.mat.value == ApplyLines(NewMaterial(|bs| - 1), bs[|bs| - 1], num))
    && (forall k :: 0 <= k < |st.matarray| ==>
          st.matarray[k] == ApplyLines(NewMaterial(k), bs[k], num))
  }

  /** A `newmtl` line seals the open material as the last one and opens an empty block. */
  lemma NewmtlContents(st: MtlState, bs: seq<seq<Line>>, l: Line, line: nat, num: Numerals)
    requires Contents(st, bs, num) && LineDirective(l) == DNewmtl
    ensures MtlLine(st, l, line, num).Success?
    ensures Contents(MtlLine(st, l, line, num).value, bs + [[]], num)
  {
    var st' := MtlLine(st, l, line, num).value;
    var bs' := bs + [[]];
    assert forall k :: 0 <= k < |bs| ==> bs'[k] == bs[k];
    forall k | 0 <= k < |st'.matarray|
      ensures st'.matarray[k] == ApplyLines(NewMaterial(k), bs'[k], num)
    {
      if k < |st.matarray| {
        assert st'.matarray[k] == st.matarray[k];
      }
    }
  }

  /** A line applied after a block is the block with the line appended, applied. */
  lemma ApplyJoin(m: Material, ps: seq<Line>, l: Line, num: Numerals)
    ensures ApplyLines(m, ps + [l], num) == ApplyLine(ApplyLines(m, ps, num), l, num)
  {
    assert (ps + [l])[..|ps|] == ps;
  }

  /** A line other than `newmtl` changes the open material as ApplyLine says, and nothing else. */
  lemma JoinState(st: MtlState, l: Line, line: nat, num: Numerals)
    requires LineDirective(l) != DNewmtl && st.mat.Some?
    ensures MtlLine(st, l, line, num).Success?
    ensures MtlLine(st, l, line, num).value
            == st.(mat := Some(ApplyLine(st.mat.value, l, num)))
  {
    if l.Tokens? && !l.dir.Sets() {
      assert Apply(st.mat.value, l.dir, l.tokens, num) == st.mat.value;
    }
  }

  /** Any other line joins the open block, and the open material takes it in. */
  lemma JoinContents(st: MtlState, bs: seq<seq<Line>>, l: Line, line: nat, num: Numerals)
    requires Contents(st, bs, num) && LineDirective(l) != DNewmtl && bs != []
    ensures MtlLine(st, l, line, num).Success?
    ensures Contents(MtlLine(st, l, line, num).value, bs[..|bs| - 1] + [bs[|bs| - 1] + [l]], num)
  {
    var n := |bs|;
    var block := bs[n - 1] + [l];
    var bs' := bs[..n - 1] + [block];
    JoinState(st, l, line, num);
    ApplyJoin(NewMaterial(n - 1), bs[n - 1], l, num);
    var st' := MtlLine(st, l, line, num).value;
    assert st'.mat.value == ApplyLines(NewMaterial(n - 1), block, num);
    assert st'.matarray == st.matarray;
    forall k | 0 <= k < |st'.matarray|
      ensures st'.matarray[k] == ApplyLines(NewMaterial(k), bs'[k], num)
    {
      assert bs'[k] == bs[k];
    }
  }

  /** One step of the loop keeps the contents in step with the blocks. */
  lemma MtlLineContents(st: MtlState, bs: seq<seq<Line>>, l: Line, line: nat, num: Numerals)
    requires Contents(st, bs, num)
    requires MtlLine(st, l, line, num).Success?
    ensures Contents(MtlLine(st, l, line, num).value, NextBlocks(bs, l), num)
  {
    if LineDirective(l) == DNewmtl {
      NewmtlContents(st, bs, l, line, num);
    } else if bs != [] {
      JoinContents(st, bs, l, line, num);
    }
  }

  /** The whole loop keeps the contents in step with the blocks of the lines read. */
  lemma {:induction false} MtlFoldContents(ls: seq<Line>, num: Numerals)
    requires MtlFold(ls, num).Success?
    ensures Contents(MtlFold(ls, num).value, Blocks(ls), num)
  {
    if ls != [] {
      var front := ls[..|ls| - 1];
      MtlFoldContents(front, num);
      MtlLineContents(MtlFold(front, num).value, Blocks(front), ls[|ls| - 1], |ls| - 1, num);
    }
  }

  /** The final seal puts the open material last: one material per block. */
  lemma SealContents(st: MtlState, bs: seq<seq<Line>>, num: Numerals)
    requires Contents(st, bs, num)
    ensures |SealOpen(st).matarray| == |bs|
    ensures forall k :: 0 <= k < |bs| ==>
              SealOpen(st).matarray[k] == ApplyLines(NewMaterial(k), bs[k], num)
  {
    if st.mat.Some? {
      var list := SealOpen(st).matarray;
      assert list == st.matarray + [st.mat.value];
      forall k | 0 <= k < |bs|
        ensures list[k] == ApplyLines(NewMaterial(k), bs[k], num)
      {
        if k < |st.matarray| {
          assert list[k] == st.matarray[k];
        }
      }
    }
  }

  /**
   * A library that builds holds one material per block, and field `f` of material `k` is what
   * the last line of block `k` writing `f` wrote, or unset when no line of the block writes it
   * (FieldOfLast, FieldOfNone, NewMaterialUnset).
   */
  lemma MtlFields(ls: seq<Line>, num: Numerals)
    ensures var r := MtlResult(MtlFold(ls, num));
            r.Success? ==>
              && |r.value.list| == |Blocks(ls)|
              && forall k, f :: 0 <= k < |r.value.list| ==>
                   Get(r.value.list[k], f) == FieldOf(Get(NewMaterial(k), f), Blocks(ls)[k], f, num)
  {
    if MtlFold(ls, num).Success? {
      var st := MtlFold(ls, num).value;
      var bs := Blocks(ls);
      MtlFoldContents(ls, num);
      SealContents(st, bs, num);
      var list := SealOpen(st).matarray;
      assert MtlResult(MtlFold(ls, num)).value.list == list;
      forall k, f | 0 <= k < |list|
        ensures Get(list[k], f) == FieldOf(Get(NewMaterial(k), f), bs[k], f, num)
      {
        ApplyLinesField(NewMaterial(k), bs[k], f, num);
      }
    }
  }

  /** `newmtl`, then `d`, then `Tr` builds: nothing comes before the `newmtl`. */
  lemma DissolveBuilds(open: seq<string>, dTokens: seq<string>, trTokens: seq<string>,
                       num: Numerals)
    ensures MtlFold([Tokens(DNewmtl, open), Tokens(DD, dTokens), Tokens(DTr, trTokens)], num).Success?
  {
    var ls := [Tokens(DNewmtl, open), Tokens(DD, dTokens), Tokens(DTr, trTokens)];
    assert ls[..1][..0] == [] && ls[..2][..1] == ls[..1] && ls[..3][..2] == ls[..2];
    assert ls[..3] == ls;
    MtlFoldLine(ls, 0, num);
    MtlFoldLine(ls, 1, num);
    MtlFoldLine(ls, 2, num);
  }

  /** `newmtl`, then `d`, then `Tr` is one block of the two directives. */
  lemma DissolveBlocks(open: seq<string>, dTokens: seq<string>, trTokens: seq<string>)
    ensures Blocks([Tokens(DNewmtl, open), Tokens(DD, dTokens), Tokens(DTr, trTokens)])
            == [[Tokens(DD, dTokens), Tokens(DTr, trTokens)]]
  {
    var ls := [Tokens(DNewmtl, open), Tokens(DD, dTokens), Tokens(DTr, trTokens)];
    assert ls[..0] == [] && ls[..3] == ls;
    BlocksLine(ls, 0);
    BlocksLine(ls, 1);
    BlocksLine(ls, 2);
    var b1: seq<Line> := [] + [ls[1]];
    var b2: seq<Line> := b1 + [ls[2]];
    assert Blocks(ls[..1]) == [[]];
    assert Blocks(ls[..2]) == [b1] by {
      var bs: seq<seq<Line>> := [[]];
      assert bs[..0] + [bs[0] + [ls[1]]] == [b1];
    }
    assert Blocks(ls) == [b2] by {
      var bs := [b1];
      assert bs[..0] + [bs[0] + [ls[2]]] == [b2];
    }
    assert b2 == [ls[1], ls[2]];
  }

  /**
   * A `newmtl` line, then `d`, then `Tr`: the library builds one material, and the `Tr` line,
   * the later one, sets its dissolve (`newmtl glass`, `d 0.5`, `Tr 0.3` leaves `1 - 0.3`).
   */
  lemma DissolveExample(open: seq<string>, dTokens: seq<string>, trTokens: seq<string>,
                        num: Numerals)
    ensures var ls := [Tokens(DNewmtl, open), Tokens(DD, dTokens), Tokens(DTr, trTokens)];
            var r := MtlResult(MtlFold(ls, num));
            r.Success? && |r.value.list| == 1
            && r.value.list[0].d == Some(1.0 - num.parseFloat(Arg(trTokens, 1)))
  {
    var ls := [Tokens(DNewmtl, open), Tokens(DD, dTokens), Tokens(DTr, trTokens)];
    var block := [Tokens(DD, dTokens), Tokens(DTr, trTokens)];
    DissolveBuilds(open, dTokens, trTokens, num);
    DissolveBlocks(open, dTokens, trTokens);
    MtlFields(ls, num);
    FieldOfLast(Get(NewMaterial(0), FD), block, FD, num, 1);
    assert Get(MtlResult(MtlFold(ls, num)).value.list[0], FD)
        == Written(DTr, trTokens, num);
  }

  /**
   * The head of the loop body of `parseMtl` (src/index.js:398-404): trim, skip a blank or
   * comment line, split into tokens, and select the case for the keyword.
   */
  method ReadLine(text: string) returns (l: Line)
    ensures l == LineOf(text)
  {
    var trimmed := Trim(text);
    if |trimmed| == 0 || trimmed[0] == '#' {
      return Blank;
    }
    var tokens := Fields(trimmed);
    l := Tokens(DirectiveOf(Keyword(tokens)), tokens);
  }

  /**
   * The switch of the loop of `parseMtl` for the `line`-th line (src/index.js:404-465), on the
   * loop's locals `mat`, `matname`, `matmap`, `matarray` and `nextMatId`: a directive before
   * any `newmtl` is the error the source throws there.
   */
  method MtlParseLine(st: MtlState, l: Line, line: nat, num: Numerals)
    returns (r: Result<MtlState, MtlError>)
    ensures r == MtlLine(st, l, line, num)
  {
    if l.Blank? {
      return Success(st);
    }
    var dir, tokens := l.dir, l.tokens;
    var mat, matname, matmap, matarray, nextMatId := st.mat, st.matname, st.matmap, st.matarray, st.nextMatId;
    if dir == DNewmtl {
      if mat.Some? {
        matmap := matmap[matname := mat.value];
        matarray := matarray + [mat.value];
      }
      mat := Some(NewMaterial(nextMatId));
      nextMatId := nextMatId + 1;
      matname := NameOf(tokens);
    } else if dir != DOther {
      if mat.None? {
        return Failure(DirectiveBeforeNewmtl(line, Keyword(tokens)));
      }
      mat := Some(Apply(mat.value, dir, tokens, num));
    }
    r := Success(MtlState(mat, matname, matmap, matarray, nextMatId));
  }

  /**
   * `parseMtl` (src/index.js:392-472): the loop over the lines, stopping at the first error,
   * then the final seal of the open material.
   */
  method ParseMtl(text: string, num: Numerals) returns (r: Result<MaterialTable, MtlError>)
    ensures r == MtlSpec(text, num)
  {
    var data := Split(text, {'\n'});
    ghost var ls := LinesOf(data);
    var st := MtlStart;
    for i := 0 to |data|
      invariant MtlFold(ls[..i], num) == Success(st)
    {
      MtlFoldLine(ls, i, num);
      var l := ReadLine(data[i]);
      LinesOfAt(data, i);
      var next := MtlParseLine(st, l, i, num);
      if next.Failure? {
        FailureSticks(ls, i + 1, num);
        return Failure(next.error);
      }
      st := next.value;
    }
    assert ls[..|data|] == ls;
    if st.mat.Some? {
      st := st.(matmap := st.matmap[st.matname := st.mat.value], matarray := st.matarray + [st.mat.value]);
    }
    r := Success(MaterialTable(st.matmap, st.matarray));
  }
}
