/**
 * The first pass of the OBJ loader (src/index.js:261-385): every `v`, `vn`, `vt`, `f`, `g`,
 * `o` and `usemtl` line of the geometry text becomes one command, and lines with any other
 * keyword are ignored; faces are read as reference triples and, on request,
 * fan-triangulated; `mtllib` only records the material library's path.
 */
module Commands {

  import opened Wrappers
  import opened Text
  import opened Conversions

  /** The sentinel a missing texture-coordinate or normal slot keeps. */
  const Absent: int := -1

  /** One face reference `v`, `v/vt`, `v//vn` or `v/vt/vn`, 1-based or negative (relative). */
  datatype Triple = Triple(v: int, vt: int, vn: int)

  /**
   * A command of the stream. A face holds its references, flattened over its sub-faces, and
   * the vertex count of each sub-face. `mtllib` has no command: it never enters the stream.
   */
  datatype Command =
    | V(x: real, y: real, z: real)
    | VN(nx: real, ny: real, nz: real)
    | VT(u: real, v: real)
    | F(faces: seq<Triple>, numVerts: seq<nat>)
    | G(name: string)
    | O(name: string)
    | UseMtl(name: string)
  {
    /** The face's `numF`: how many references it holds. */
    function NumF(): nat
      requires F?
    {
      |faces|
    }

    /** The face's `numFNumVerts`: how many sub-faces it holds. */
    function NumFNumVerts(): nat
      requires F?
    {
      |numVerts|
    }
  }

  /** The sum of a list of counts. */
  function Sum(ns: seq<nat>): nat {
    if ns == [] then 0 else Sum(ns[..|ns| - 1]) + ns[|ns| - 1]
  }

  lemma {:induction false} SumAppend(a: seq<nat>, b: seq<nat>)
    ensures Sum(a + b) == Sum(a) + Sum(b)
    decreases |b|
  {
    if b == [] {
      assert a + b == a;
    } else {
      SumAppend(a, b[..|b| - 1]);
      assert (a + b)[..|a + b| - 1] == a + b[..|b| - 1];
    }
  }

  /**
   * `parseTriple` (src/index.js:280-293): the text is split on `/`; the first piece is always
   * converted, the second and third only when present and non-empty, and otherwise stay -1.
   */
  function ParseTriple(s: string, parseInt: string -> int): Triple {
    var parts := Split(s, {'/'});
    Triple(parseInt(parts[0]),
           if |parts| > 1 && parts[1] != [] then parseInt(parts[1]) else Absent,
           if |parts| > 2 && parts[2] != [] then parseInt(parts[2]) else Absent)
  }

  /** How a slot after the first reads: -1 when it is empty. */
  function Slot(s: string, parseInt: string -> int): int {
    if s == [] then Absent else parseInt(s)
  }

  /** The bare form `i`: only the position slot is converted, the other two are -1. */
  lemma ParseTripleBare(i: string, parseInt: string -> int)
    requires Plain(i, {'/'})
    ensures ParseTriple(i, parseInt) == Triple(parseInt(i), Absent, Absent)
  {
    SplitPlain(i, {'/'});
  }

  /** The form `i/j`: position and texture slots are read, the normal slot is -1. */
  lemma ParseTripleTexture(i: string, j: string, parseInt: string -> int)
    requires Plain(i, {'/'}) && Plain(j, {'/'})
    ensures ParseTriple(i + "/" + j, parseInt) == Triple(parseInt(i), Slot(j, parseInt), Absent)
  {
    SplitPlain(j, {'/'});
    SplitAfterPiece(i, '/', j, {'/'});
    assert i + "/" + j == i + ['/'] + j;
  }

  /** The form `i/j/k` (with `j` empty, `i//k`): all three slots are read, an empty one as -1. */
  lemma ParseTripleFull(i: string, j: string, k: string, parseInt: string -> int)
    requires Plain(i, {'/'}) && Plain(j, {'/'}) && Plain(k, {'/'})
    ensures ParseTriple(i + "/" + j + "/" + k, parseInt)
         == Triple(parseInt(i), Slot(j, parseInt), Slot(k, parseInt))
  {
    var sep := {'/'};
    SplitPlain(k, sep);
    SplitAfterPiece(j, '/', k, sep);
    assert j + "/" + k == j + ['/'] + k;
    SplitAfterPiece(i, '/', j + "/" + k, sep);
    assert i + "/" + j + "/" + k == i + ['/'] + (j + "/" + k);
  }

  /**
   * The four written forms of a reference. `i` and `i//k` leave the texture slot -1, `i` and
   * `i/j` leave the normal slot -1; the position slot is always converted.
   */
  lemma ParseTripleForms(i: string, j: string, k: string, parseInt: string -> int)
    requires Plain(i, {'/'}) && Plain(j, {'/'}) && Plain(k, {'/'})
    ensures ParseTriple(i, parseInt) == Triple(parseInt(i), Absent, Absent)
    ensures ParseTriple(i + "/" + j, parseInt) == Triple(parseInt(i), Slot(j, parseInt), Absent)
    ensures ParseTriple(i + "//" + k, parseInt) == Triple(parseInt(i), Absent, Slot(k, parseInt))
    ensures ParseTriple(i + "/" + j + "/" + k, parseInt)
         == Triple(parseInt(i), Slot(j, parseInt), Slot(k, parseInt))
  {
    ParseTripleBare(i, parseInt);
    ParseTripleTexture(i, j, parseInt);
    ParseTripleFull(i, [], k, parseInt);
    assert i + "/" + [] + "/" + k == i + "//" + k;
    ParseTripleFull(i, j, k, parseInt);
  }

  /** The references of an `f` line: one triple per token after the keyword. */
  function Refs(tokens: seq<string>, parseInt: string -> int): (r: seq<Triple>)
    ensures |r| == if tokens == [] then 0 else |tokens| - 1
    ensures forall k :: 0 <= k < |r| ==> r[k] == ParseTriple(tokens[k + 1], parseInt)
  {
    if |tokens| <= 1 then []
    else seq(|tokens| - 1, k requires 0 <= k < |tokens| - 1 => ParseTriple(tokens[k + 1], parseInt))
  }

  /** The fan triangulation of a polygon, flattened: three references per triangle. */
  function Fan(refs: seq<Triple>): (r: seq<Triple>)
    ensures |r| == if |refs| < 3 then 0 else 3 * (|refs| - 2)
  {
    if |refs| < 3 then []
    else Fan(refs[..|refs| - 1]) + [refs[0], refs[|refs| - 2], refs[|refs| - 1]]
  }

  /** `n` copies of `x`: `n` sub-faces of three vertices, or one material id per sub-face. */
  function Repeat(x: nat, n: nat): seq<nat> {
    seq(n, _ => x)
  }

  /** The number of triangles the fan of `n` references has. */
  function FanSize(n: nat): nat {
    if n < 3 then 0 else n - 2
  }

  /**
   * The F command `parseFace` (src/index.js:295-324) builds, with the corrected vertex count
   * of an untriangulated face (see UntriangulatedCountsAsWritten).
   */
  function FaceCommand(tokens: seq<string>, triangulate: bool, parseInt: string -> int): Command {
    var refs := Refs(tokens, parseInt);
    if triangulate then F(Fan(refs), Repeat(3, FanSize(|refs|)))
    else F(refs, [|refs|])
  }

  /** Triangle `j` of the fan is made of references 0, j + 1 and j + 2. */
  lemma {:induction false} FanTriangle(refs: seq<Triple>, j: nat)
    requires j < |refs| - 2
    ensures 3 * j + 2 < |Fan(refs)|
    ensures Fan(refs)[3 * j] == refs[0]
    ensures Fan(refs)[3 * j + 1] == refs[j + 1]
    ensures Fan(refs)[3 * j + 2] == refs[j + 2]
  {
    var n := |refs|;
    var init := refs[..n - 1];
    assert Fan(refs) == Fan(init) + [refs[0], refs[n - 2], refs[n - 1]];
    if j < n - 3 {
      FanTriangle(init, j);
    } else {
      assert |Fan(init)| == 3 * j;
    }
  }

  lemma {:induction false} SumThrees(n: nat)
    ensures Sum(Repeat(3, n)) == 3 * n
  {
    if n > 0 {
      SumThrees(n - 1);
      assert Repeat(3, n)[..n - 1] == Repeat(3, n - 1);
    }
  }

  /**
   * With triangulation, a polygon of N >= 3 references gives N - 2 triangles of three
   * vertices each, triangle j being (ref 0, ref j + 1, ref j + 2); `numF` is three times
   * `numFNumVerts`; fewer than three references give no sub-face at all.
   */
  lemma TriangulatedFace(tokens: seq<string>, parseInt: string -> int)
    ensures var refs := Refs(tokens, parseInt);
            var c := FaceCommand(tokens, true, parseInt);
            && c.NumFNumVerts() == FanSize(|refs|)
            && (forall k :: 0 <= k < c.NumFNumVerts() ==> c.numVerts[k] == 3)
            && c.NumF() == 3 * c.NumFNumVerts()
            && (|refs| < 3 ==> c.faces == [] && c.numVerts == [])
            && forall j :: 0 <= j < |refs| - 2 ==>
                 c.faces[3 * j] == refs[0] && c.faces[3 * j + 1] == refs[j + 1]
                 && c.faces[3 * j + 2] == refs[j + 2]
  {
    var refs := Refs(tokens, parseInt);
    forall j | 0 <= j < |refs| - 2
      ensures Fan(refs)[3 * j] == refs[0] && Fan(refs)[3 * j + 1] == refs[j + 1]
              && Fan(refs)[3 * j + 2] == refs[j + 2]
    {
      FanTriangle(refs, j);
    }
  }

  /** Without triangulation the face keeps every reference, in order, as one sub-face. */
  lemma UntriangulatedFace(tokens: seq<string>, parseInt: string -> int)
    ensures var c := FaceCommand(tokens, false, parseInt);
            c.faces == Refs(tokens, parseInt) && c.numVerts == [|c.faces|]
  {
  }

  /** Every face command's vertex counts add up to the references it holds. */
  lemma FaceCountsSum(tokens: seq<string>, triangulate: bool, parseInt: string -> int)
    ensures var c := FaceCommand(tokens, triangulate, parseInt);
            Sum(c.numVerts) == c.NumF()
  {
    var refs := Refs(tokens, parseInt);
    if triangulate {
      SumThrees(FanSize(|refs|));
    } else {
      assert [|refs|][..0] == [];
    }
  }

  /**
   * The per-sub-face vertex counts src/index.js:298-320 builds as written. The untriangulated
   * branch pushes `numF`, which line 298 reads from `tokens.let`, a property no array has, so
   * the one count is `undefined` (None here) whatever the line holds.
   */
  function UntriangulatedCountsAsWritten(tokens: seq<string>, triangulate: bool,
                                         parseInt: string -> int): (r: seq<Option<nat>>)
    ensures |r| == if triangulate then FanSize(|Refs(tokens, parseInt)|) else 1
  {
    if triangulate then seq(FanSize(|Refs(tokens, parseInt)|), _ => Some(3)) else [None]
  }

  /** JavaScript's sum of counts: `undefined` in the list makes the total NaN (None). */
  function SumCounts(cs: seq<Option<nat>>): Option<nat> {
    if cs == [] then Some(0)
    else match (SumCounts(cs[..|cs| - 1]), cs[|cs| - 1])
      case (Some(a), Some(b)) => Some(a + b)
      case _ => None
  }

  /**
   * The discrepancy: for the square `f 1 2 3 4`, read without triangulation (which is what the
   * call at src/index.js:369 always does), the written code records no usable vertex count,
   * while the face holds four references; the corrected FaceCommand records exactly 4.
   */
  lemma UntriangulatedCountExample(parseInt: string -> int)
    ensures var tokens := ["f", "1", "2", "3", "4"];
            && |FaceCommand(tokens, false, parseInt).faces| == 4
            && SumCounts(UntriangulatedCountsAsWritten(tokens, false, parseInt)) == None
            && FaceCommand(tokens, false, parseInt).numVerts == [4]
  {
    var tokens := ["f", "1", "2", "3", "4"];
    assert |Refs(tokens, parseInt)| == 4;
    var cs: seq<Option<nat>> := [None];
    assert cs[..0] == [];
  }

  /**
   * The triangulating branch of `parseFace` (src/index.js:303-316): walks the polygon keeping
   * the first reference and the last two seen, one triangle and one count of 3 per step.
   */
  method Triangulate(fs: seq<Triple>) returns (tfs: seq<Triple>, nfs: seq<nat>)
    ensures tfs == Fan(fs) && nfs == Repeat(3, FanSize(|fs|))
  {
    tfs, nfs := [], [];
    // the source reads fs[0] and fs[1] unconditionally; it uses them only when the loop runs
    if |fs| >= 2 {
      var i0, i2 := fs[0], fs[1];
      var i1: Triple;
      var j := 2;
      while j < |fs|
        invariant 2 <= j <= |fs|
        invariant i0 == fs[0] && i2 == fs[j - 1]
        invariant tfs == Fan(fs[..j]) && nfs == Repeat(3, j - 2)
      {
        i1 := i2;
        i2 := fs[j];
        assert fs[..j + 1][..j] == fs[..j];
        tfs := tfs + [i0, i1, i2];
        nfs := nfs + [3];
        j := j + 1;
      }
      assert fs[..j] == fs;
    }
  }

  /**
   * `parseFace` (src/index.js:295-324): reads every token after the keyword as a triple, then
   * either triangulates or keeps the polygon as one sub-face.
   */
  method ParseFace(tokens: seq<string>, triangulate: bool, parseInt: string -> int)
    returns (cmd: Command)
    ensures cmd == FaceCommand(tokens, triangulate, parseInt)
  {
    ghost var refs := Refs(tokens, parseInt);
    var fs: seq<Triple> := [];
    var i := 1;
    while i < |tokens|
      invariant 1 <= i <= |tokens| || (tokens == [] && i == 1)
      invariant fs == refs[..i - 1]
    {
      fs := fs + [ParseTriple(tokens[i], parseInt)];
      i := i + 1;
    }
    assert fs == refs;
    if triangulate {
      var tfs, nfs := Triangulate(fs);
      cmd := F(tfs, nfs);
    } else {
      cmd := F(fs, [|fs|]);
    }
  }

  /** A face command whose vertex counts add up to its references, as parseFace builds them. */
  predicate WellFormed(c: Command) {
    c.F? ==> Sum(c.numVerts) == c.NumF()
  }

  /** What one line contributes to the first pass. */
  datatype LineKind = Skip | Emit(cmd: Command) | MtlLib(path: string)

  /** The keywords `parseObj` switches on. */
  datatype ObjKeyword = KwV | KwVN | KwVT | KwF | KwG | KwO | KwUseMtl | KwMtlLib | KwOther

  /** The geometry keywords, each spelled as the source's `case` labels spell it. */
  const ObjKeywords: set<string> := {"v", "vn", "vt", "f", "g", "o", "usemtl", "mtllib"}

  /** The case of `switch (tokens[0])` (src/index.js:355) that a keyword selects. */
  function KeywordOf(kw: string): (r: ObjKeyword)
    ensures r == KwOther <==> kw !in ObjKeywords
  {
    if kw == "v" then KwV
    else if kw == "vn" then KwVN
    else if kw == "vt" then KwVT
    else if kw == "f" then KwF
    else if kw == "g" then KwG
    else if kw == "o" then KwO
    else if kw == "usemtl" then KwUseMtl
    else if kw == "mtllib" then KwMtlLib
    else KwOther
  }

  /**
   * The `switch (tokens[0])` of src/index.js:355-385 for the tokens of one line that is
   * neither blank nor a comment. Every command it emits is well formed.
   */
  function Dispatch(tokens: seq<string>, triangulate: bool, num: Numerals): (r: LineKind)
    ensures r.Emit? ==> WellFormed(r.cmd)
  {
    var pf := num.parseFloat;
    match KeywordOf(Keyword(tokens))
    case KwV => Emit(V(pf(Arg(tokens, 1)), pf(Arg(tokens, 2)), pf(Arg(tokens, 3))))
    case KwVN => Emit(VN(pf(Arg(tokens, 1)), pf(Arg(tokens, 2)), pf(Arg(tokens, 3))))
    case KwVT => Emit(VT(pf(Arg(tokens, 1)), pf(Arg(tokens, 2))))
    case KwF =>
      FaceCountsSum(tokens, triangulate, num.parseInt);
      Emit(FaceCommand(tokens, triangulate, num.parseInt))
    case KwG => Emit(G(NameOf(tokens)))
    case KwO => Emit(O(NameOf(tokens)))
    case KwUseMtl => Emit(UseMtl(NameOf(tokens)))
    case KwMtlLib => MtlLib(NameOf(tokens))
    case KwOther => Skip
  }

  /** One line of the geometry text (src/index.js:348-385): blank and comment lines are skipped. */
  function Classify(line: string, triangulate: bool, num: Numerals): (r: LineKind)
    ensures r.Emit? ==> WellFormed(r.cmd)
  {
    match Tokenize(line)
    case None => Skip
    case Some(tokens) => Dispatch(tokens, triangulate, num)
  }

  /**
   * Lines with an unknown keyword add nothing; `mtllib` gives the path written after it and
   * no command; each of the seven other keywords adds a command.
   */
  lemma DispatchKeywords(tokens: seq<string>, triangulate: bool, num: Numerals)
    ensures var r := Dispatch(tokens, triangulate, num);
            && (Keyword(tokens) !in ObjKeywords ==> r == Skip)
            && (r.MtlLib? <==> Keyword(tokens) == "mtllib")
            && (r.MtlLib? ==> r.path == NameOf(tokens))
            && (r.Emit? <==> Keyword(tokens) in ObjKeywords - {"mtllib"})
  {
    var kw := Keyword(tokens);
    if kw == "mtllib" {
      assert KeywordOf(kw) == KwMtlLib;
    } else if KeywordOf(kw) == KwMtlLib {
      assert false;
    }
  }

  /**
   * `applyName` (src/index.js:326-331) and the `mtllib` case join the words after the
   * keyword with single spaces, so the line `kw w1 … wn` (single spaces, no white space in
   * the words, `kw` not starting a comment) reads back as keyword `kw` and name `w1 … wn`.
   */
  lemma NameRoundTrip(kw: string, words: seq<string>)
    requires kw != [] && kw[0] != '#'
    requires forall i :: 0 <= i < |kw| ==> !IsTrimSpace(kw[i])
    requires forall k :: 0 <= k < |words| ==> words[k] != []
    requires forall k, i :: 0 <= k < |words| && 0 <= i < |words[k]| ==> !IsTrimSpace(words[k][i])
    ensures var r := Tokenize(Join([kw] + words, " "));
            r.Some? && Keyword(r.value) == kw && NameOf(r.value) == Join(words, " ")
  {
    var ts := [kw] + words;
    forall k | 0 <= k < |ts|
      ensures ts[k] != [] && Plain(ts[k], Blanks)
      ensures forall i :: 0 <= i < |ts[k]| ==> !IsTrimSpace(ts[k][i])
    {
      if k > 0 {
        assert ts[k] == words[k - 1];
      }
    }
    var line := Join(ts, " ");
    JoinEnds(ts, " ");
    var last := ts[|ts| - 1];
    assert !IsTrimSpace(last[|last| - 1]);
    TrimKeeps(line);
    FieldsJoin(ts);
    assert ts[1..] == words;
  }

  /** Blank and comment lines add nothing. */
  lemma SkippedLines(line: string, triangulate: bool, num: Numerals)
    requires Trim(line) == [] || Trim(line)[0] == '#'
    ensures Classify(line, triangulate, num) == Skip
  {
  }

  /** Every line of a text, classified. */
  function ClassifyAll(lines: seq<string>, triangulate: bool, num: Numerals): (r: seq<LineKind>)
    ensures |r| == |lines|
    ensures forall i :: 0 <= i < |lines| ==> r[i] == Classify(lines[i], triangulate, num)
  {
    if lines == [] then []
    else ClassifyAll(lines[..|lines| - 1], triangulate, num) + [Classify(lines[|lines| - 1], triangulate, num)]
  }

  /**
   * What the first pass has built: the command stream, the last `mtllib` path, and the
   * running totals `numF` (references) and `numFaces` (sub-faces).
   */
  datatype ObjParse = ObjParse(cmds: seq<Command>, mtlpath: Option<string>, numF: nat, numFaces: nat)

  function ObjStep(p: ObjParse, k: LineKind): ObjParse {
    match k
    case Skip => p
    case Emit(c) =>
      if c.F? then p.(cmds := p.cmds + [c], numF := p.numF + c.NumF(), numFaces := p.numFaces + c.NumFNumVerts())
      else p.(cmds := p.cmds + [c])
    case MtlLib(path) => p.(mtlpath := Some(path))
  }

  /** The first pass over the classified lines, one step per line. */
  function FirstPass(kinds: seq<LineKind>): ObjParse {
    if kinds == [] then ObjParse([], None, 0, 0)
    else ObjStep(FirstPass(kinds[..|kinds| - 1]), kinds[|kinds| - 1])
  }

  /** The first pass over a whole text, split on `\n`. */
  function ObjSpec(text: string, triangulate: bool, num: Numerals): ObjParse {
    FirstPass(ClassifyAll(Split(text, {'\n'}), triangulate, num))
  }

  /** One more line is one more step of the first pass. */
  lemma FirstPassLine(data: seq<string>, i: nat, triangulate: bool, num: Numerals)
    requires i < |data|
    ensures FirstPass(ClassifyAll(data[..i + 1], triangulate, num))
         == ObjStep(FirstPass(ClassifyAll(data[..i], triangulate, num)), Classify(data[i], triangulate, num))
  {
    assert data[..i + 1][..i] == data[..i];
  }

  /**
   * The body of the loop of `parseObj` (src/index.js:349-354) for one line: trim, skip a blank
   * or comment line, tokenize, and act on the keyword.
   */
  method ParseLine(p: ObjParse, line: string, triangulate: bool, num: Numerals) returns (q: ObjParse)
    ensures q == ObjStep(p, Classify(line, triangulate, num))
  {
    var trimmed := Trim(line);
    if |trimmed| == 0 || trimmed[0] == '#' {
      return p;
    }
    var tokens := Fields(trimmed);
    assert Tokenize(line) == Some(tokens);
    q := DispatchTokens(p, tokens, triangulate, num);
  }

  /** The `switch (tokens[0])` of src/index.js:355-385, acting on the first pass's state. */
  method DispatchTokens(p: ObjParse, tokens: seq<string>, triangulate: bool, num: Numerals)
    returns (q: ObjParse)
    ensures q == ObjStep(p, Dispatch(tokens, triangulate, num))
  {
    q := p;
    var pf := num.parseFloat;
    match KeywordOf(Keyword(tokens)) {
      case KwV =>
        q := q.(cmds := q.cmds + [V(pf(Arg(tokens, 1)), pf(Arg(tokens, 2)), pf(Arg(tokens, 3)))]);
      case KwVN =>
        q := q.(cmds := q.cmds + [VN(pf(Arg(tokens, 1)), pf(Arg(tokens, 2)), pf(Arg(tokens, 3)))]);
      case KwVT =>
        q := q.(cmds := q.cmds + [VT(pf(Arg(tokens, 1)), pf(Arg(tokens, 2)))]);
      case KwF =>
        var cmd := ParseFace(tokens, triangulate, num.parseInt);
        q := q.(cmds := q.cmds + [cmd], numF := q.numF + cmd.NumF(),
                numFaces := q.numFaces + cmd.NumFNumVerts());
      case KwG =>
        q := q.(cmds := q.cmds + [G(NameOf(tokens))]);
      case KwO =>
        q := q.(cmds := q.cmds + [O(NameOf(tokens))]);
      case KwUseMtl =>
        q := q.(cmds := q.cmds + [UseMtl(NameOf(tokens))]);
      case KwMtlLib =>
        q := q.(mtlpath := Some(NameOf(tokens)));
      case KwOther =>
    }
  }

  /**
   * The tokenizing and dispatch loop of `parseObj` (src/index.js:342-385). The source's call
   * `parseFace(cmds, tokens)` passes no `triangulate`, so it behaves as `triangulate == false`.
   */
  method ParseObj(text: string, triangulate: bool, num: Numerals) returns (p: ObjParse)
    ensures p == ObjSpec(text, triangulate, num)
  {
    var data := Split(text, {'\n'});
    p := ObjParse([], None, 0, 0);
    for i := 0 to |data|
      invariant p == FirstPass(ClassifyAll(data[..i], triangulate, num))
    {
      FirstPassLine(data, i, triangulate, num);
      p := ParseLine(p, data[i], triangulate, num);
    }
    assert data[..|data|] == data;
  }

  /** The number of references all face commands of a stream hold. */
  function RefCount(cmds: seq<Command>): nat {
    if cmds == [] then 0
    else RefCount(cmds[..|cmds| - 1]) + (if cmds[|cmds| - 1].F? then cmds[|cmds| - 1].NumF() else 0)
  }

  /** The sub-faces all face commands of a stream hold. */
  function SubFaces(cmds: seq<Command>): nat {
    if cmds == [] then 0
    else SubFaces(cmds[..|cmds| - 1]) + (if cmds[|cmds| - 1].F? then cmds[|cmds| - 1].NumFNumVerts() else 0)
  }

  /**
   * The totals of the first pass are those of its command stream; the stream holds exactly
   * the emitted commands, in line order, and all of them are well formed when the lines' are.
   */
  lemma {:induction false} FirstPassStream(kinds: seq<LineKind>)
    requires forall i :: 0 <= i < |kinds| ==> kinds[i].Emit? ==> WellFormed(kinds[i].cmd)
    ensures var p := FirstPass(kinds);
            && p.cmds == Emitted(kinds)
            && p.numF == RefCount(p.cmds) && p.numFaces == SubFaces(p.cmds)
            && forall k :: 0 <= k < |p.cmds| ==> WellFormed(p.cmds[k])
  {
    if kinds != [] {
      var init := kinds[..|kinds| - 1];
      FirstPassStream(init);
      var q := FirstPass(init);
      var k := kinds[|kinds| - 1];
      if k.Emit? {
        assert (q.cmds + [k.cmd])[..|q.cmds|] == q.cmds;
      }
    }
  }

  /** The commands of the emitting lines, in order. */
  function Emitted(kinds: seq<LineKind>): seq<Command> {
    if kinds == [] then []
    else Emitted(kinds[..|kinds| - 1]) + (if kinds[|kinds| - 1].Emit? then [kinds[|kinds| - 1].cmd] else [])
  }

  /** The first pass over a text gives a well-formed stream whose totals are its own. */
  lemma ObjTotals(text: string, triangulate: bool, num: Numerals)
    ensures var p := ObjSpec(text, triangulate, num);
            && p.numF == RefCount(p.cmds) && p.numFaces == SubFaces(p.cmds)
            && forall k :: 0 <= k < |p.cmds| ==> WellFormed(p.cmds[k])
  {
    FirstPassStream(ClassifyAll(Split(text, {'\n'}), triangulate, num));
  }

  /** No path is recorded exactly when no line is an `mtllib` line. */
  lemma {:induction false} MtlPathNone(kinds: seq<LineKind>)
    ensures FirstPass(kinds).mtlpath.None? <==> forall i :: 0 <= i < |kinds| ==> !kinds[i].MtlLib?
  {
    if kinds != [] {
      var init := kinds[..|kinds| - 1];
      MtlPathNone(init);
      assert forall i :: 0 <= i < |init| ==> init[i] == kinds[i];
    }
  }

  /**
   * The path the first pass records is that of the LAST `mtllib` line (a later one overwrites
   * an earlier one).
   */
  lemma {:induction false} MtlPathLast(kinds: seq<LineKind>)
    requires FirstPass(kinds).mtlpath.Some?
    ensures var path := FirstPass(kinds).mtlpath.value;
            exists i :: (0 <= i < |kinds| && kinds[i] == MtlLib(path)
                         && forall j :: i < j < |kinds| ==> !kinds[j].MtlLib?)
  {
    var n := |kinds|;
    var path := FirstPass(kinds).mtlpath.value;
    if kinds[n - 1].MtlLib? {
      assert kinds[n - 1] == MtlLib(path);
    } else {
      var init := kinds[..n - 1];
      assert FirstPass(init).mtlpath == FirstPass(kinds).mtlpath;
      MtlPathLast(init);
      var i :| 0 <= i < n - 1 && init[i] == MtlLib(path)
               && forall j :: i < j < n - 1 ==> !init[j].MtlLib?;
      assert kinds[i] == MtlLib(path);
      assert forall j :: i < j < n ==> !kinds[j].MtlLib? by {
        forall j | i < j < n ensures !kinds[j].MtlLib? {
          if j < n - 1 { assert kinds[j] == init[j]; }
        }
      }
    }
  }

  /**
   * The path the first pass records is that of the LAST `mtllib` line, and there is none
   * exactly when no line is an `mtllib` line.
   */
  lemma MtlPathIsLast(kinds: seq<LineKind>)
    ensures var p := FirstPass(kinds);
            && (p.mtlpath.None? <==> forall i :: 0 <= i < |kinds| ==> !kinds[i].MtlLib?)
            && (p.mtlpath.Some? ==>
                  exists i :: (0 <= i < |kinds| && kinds[i] == MtlLib(p.mtlpath.value)
                    && forall j :: i < j < |kinds| ==> !kinds[j].MtlLib?))
  {
    MtlPathNone(kinds);
    if FirstPass(kinds).mtlpath.Some? {
      MtlPathLast(kinds);
    }
  }
}
