# obj-loader in Dafny

A model of `parseObj`, the JavaScript port of tinyobjloader-c that reads Wavefront OBJ
geometry text and its MTL material library. The loader works in three passes:

1. **First pass** (`Commands`). Every `v`, `vn`, `vt`, `f`, `g`, `o` and `usemtl` line of the
   OBJ text becomes one command of a stream; blank and comment lines, and lines with any other
   keyword, are ignored. A face line is read as reference
   triples `v`, `v/vt`, `v//vn` or `v/vt/vn` (a missing slot stays `-1`) and can be
   fan-triangulated. `mtllib` only records the library path. The pass also keeps the totals
   `numF` (references) and `numFaces` (sub-faces). The model's `numF` counts the references a
   face line actually holds. The source's `numF` total is NaN as soon as one `f` line is read
   (see Findings).
2. **Material library** (`Materials`). `parseMtl` opens a material at each `newmtl` with the
   next id. It applies the `Ka`…`disp` directives to the open material and seals it into the
   name map and the list at the next `newmtl` or at the end of the text.
3. **`resume`**. The resolver (`Resolver`) walks the stream. It copies vertex, normal and
   texture numbers into flat arrays and fixes every face reference against the counters as
   they stand (`fixIndex`: 1-based to 0-based, negative counts back). It gives every
   sub-face the material id of the last `usemtl` naming a known material. The segmenter
   (`Shapes`) cuts the run of face commands into named shapes at `g`/`o` boundaries.
   `Loader` wires the passes together: when the text names a library, the caller's loader
   fetches it.

Every loop of the source is a method proved equal to a fold function over the lines or
commands, and the properties are lemmas about those folds. `Wrappers` holds `Option` and
`Result`. `Text` holds the string primitives the loops use: `split`, `trim`, splitting on
blanks and joining.

Numeric conversion is a parameter: `Numerals(parseFloat, parseInt)` (module `Conversions`) is a pair of total
functions from token text, and a missing token is passed as the empty string.

## Model

| member | source | states |
|---|---|---|
| Text.Split | src/index.js:347 | `split` on a set of separators gives at least one piece, and no piece contains a separator |
| Text.SplitJoin | src/index.js:347 | joining the pieces of `split(c)` with `c` gives back the text |
| Text.Trim | src/index.js:349-350 | trimming keeps one slice of the line and drops only white space before and after it; the result is empty exactly when the line is all white space, and otherwise starts and ends with a non-space |
| Text.TrimKeeps | src/index.js:349 | a line with no white space at either end is its own trim |
| Text.SplitCount | src/index.js:347 | `split` gives exactly one piece more than the text has separators |
| Text.Leading | src/index.js:349 | the first index from a start that is not white space, with only white space before it |
| Text.Trailing | src/index.js:349 | the end of a range once its trailing white space is dropped, with only white space after it |
| Text.Fields | src/index.js:354 | splitting on blanks and dropping empty pieces gives non-empty tokens free of spaces and tabs |
| Text.FieldsContent | src/index.js:354 | the tokens, concatenated, are the line with its blanks removed: nothing else is lost or reordered |
| Text.FieldsAtBlank | src/index.js:354 | a space or tab separates tokens and is dropped: the tokens of `a`, a blank, `b` are those of `a` followed by those of `b`, so runs of blanks give no empty token |
| Text.FieldsJoin | src/index.js:354 | tokenizing words joined by single spaces gives the words back |
| Text.JoinEnds | src/index.js:329 | non-empty pieces joined by a separator start with the first piece's first character and end with the last piece's last |
| Text.NameOf | src/index.js:329 | defines `tokens.slice(1).join(" ")`: the tokens after the keyword joined by single spaces, empty when there are none |
| Text.Tokenize | src/index.js:348-354 | defines a line as the loops see it: skipped when the trimmed line is empty or starts with `#`, otherwise its blank-separated non-empty tokens |
| Text.TokenizeShape | src/index.js:348-354 | a line is skipped exactly when it is blank or its first non-blank character is `#`; otherwise its first token starts with that character, and every token is non-empty and blank-free |
| Commands.ParseTripleForms | src/index.js:280-293 | `i` gives (i, -1, -1), `i/j` gives (i, j, -1), `i//k` gives (i, -1, k) and `i/j/k` gives (i, j, k); an empty slot stays -1 |
| Commands.ParseTriple | src/index.js:280-293 | defines a face reference: the text split on `/`, the first piece always converted, the second and third only when present and non-empty, otherwise -1 |
| Commands.FaceCommand | src/index.js:295-324 | defines the F command of an `f` line: one reference per token after `f`; triangulated, the fan of triangles (0, j + 1, j + 2) with a vertex count of 3 each; otherwise the references as read with their own count (the corrected count, see Findings) |
| Commands.Refs | src/index.js:300-302 | a face line with N references reads N triples, the k-th being `parseTriple` of token k+1 |
| Commands.Fan | src/index.js:303-316 | the fan holds 3(N−2) references for N ≥ 3 and none for N < 3 |
| Commands.FanTriangle | src/index.js:305-312 | triangle j of the fan is (ref 0, ref j+1, ref j+2) |
| Commands.TriangulatedFace | src/index.js:303-316 | with triangulation there are N−2 sub-faces, each with vertex count 3, `numF == 3 * numFNumVerts`, triangle j is (ref 0, ref j+1, ref j+2), and N < 3 gives no sub-face |
| Commands.UntriangulatedFace | src/index.js:317-320 | without triangulation the face keeps its references as read, as one sub-face whose vertex count is the number of references |
| Commands.FaceCountsSum | src/index.js:295-324 | in both modes the sub-face vertex counts add up to the references stored |
| Commands.UntriangulatedCountsAsWritten | src/index.js:298-320 | the code as written records one vertex count per sub-face in either mode: N − 2 with triangulation, one without |
| Commands.UntriangulatedCountExample | src/index.js:298 | for `f 1 2 3 4` without triangulation the written code records no usable vertex count, while the face holds 4 references and the corrected count is [4] |
| Commands.Triangulate | src/index.js:303-316 | the triangulating loop builds exactly the fan and one count of 3 per triangle |
| Commands.ParseFace | src/index.js:295-324 | `parseFace` builds the face command of its tokens |
| Commands.KeywordOf | src/index.js:355-385 | a keyword selects no case exactly when it is not one of `v`, `vn`, `vt`, `f`, `g`, `o`, `usemtl`, `mtllib` |
| Commands.Dispatch | src/index.js:355-385 | every command emitted is well formed (a face's vertex counts add up to its references) |
| Commands.DispatchKeywords | src/index.js:355-385 | unknown keywords give nothing; `mtllib` gives no command, only the path after the keyword; every other known keyword gives exactly one command |
| Commands.NameRoundTrip | src/index.js:326-354 | re-tokenizing the line `kw w1 … wn` (single spaces, no white space inside the words, `kw` not starting with `#`) gives keyword `kw`, and the name `applyName` stores is `w1 … wn` |
| Commands.SkippedLines | src/index.js:349-353 | blank and `#` lines give nothing |
| Commands.ClassifyAll | src/index.js:348 | one classification per line, in order |
| Commands.ParseLine | src/index.js:348-385 | the loop body takes the first-pass state one classified line further |
| Commands.DispatchTokens | src/index.js:355-385 | the switch takes the first-pass state one classified token list further |
| Commands.ParseObj | src/index.js:347-385 | the first-pass loop computes the fold of its classified lines |
| Commands.FirstPassStream | src/index.js:368-372 | the stream holds exactly the emitted commands in line order; `numFaces` is the stream's sub-face total, and `numF` its reference total with the corrected per-face count (the source's is NaN once a face is read) |
| Commands.ObjTotals | src/index.js:368-372 | for any text, the first pass's totals are those of its well-formed stream, with `numF` the corrected reference total rather than the source's NaN |
| Commands.MtlPathNone | src/index.js:382-383 | no path is recorded exactly when no line is an `mtllib` line |
| Commands.MtlPathLast | src/index.js:382-383 | a recorded path is that of an `mtllib` line with no `mtllib` line after it |
| Commands.MtlPathIsLast | src/index.js:382-383 | the recorded path is that of the last `mtllib` line, and there is none exactly when no line is an `mtllib` line |
| Materials.NewMaterialUnset | src/index.js:77-96 | a new material has its id and every other field unset |
| Materials.DirectiveOf | src/index.js:404-465 | defines the case a keyword selects: one per `case` label, `bump` sharing the case of `map_bump`, none for any other keyword |
| Materials.DirectiveKeywords | src/index.js:404-465 | a keyword selects no case exactly when it is not one of the nineteen directive keywords; `bump` and `map_bump` share one case; only `Tr` selects the `Tr` case |
| Materials.Apply | src/index.js:413-464 | defines one directive on the open material: `Ka` to `Ke` store three numbers, `Ni`, `Ns` and `d` one, `Tr` stores `1 - v` into `d`, `illum` an integer, the map directives and `disp` the name after the keyword |
| Materials.ApplyFrame | src/index.js:413-464 | a directive keeps the id and every field other than its own; an unknown directive changes nothing |
| Materials.ApplySets | src/index.js:413-464 | a setting directive leaves its own field set |
| Materials.Dissolve | src/index.js:437-442 | `Tr v` stores `1 - v` into `d`, `d v` stores `v`, and neither touches `Tr` |
| Materials.LaterWins | src/index.js:413-464 | of two directives on the same field (`d` and `Tr`, `bump` and `map_bump`, or a repeat) the later wins |
| Materials.ApplyWrites | src/index.js:413-464 | a setting directive leaves in its field exactly the value read off its tokens: three numbers, one number, `1 - v` for `Tr`, an integer for `illum`, or the file name |
| Materials.FieldOfLast | src/index.js:413-464 | when a line is the last of a block to write a field, the field holds what that line wrote |
| Materials.FieldOfNone | src/index.js:413-464 | when no line of a block writes a field, the field keeps its value |
| Materials.ApplyLinesField | src/index.js:413-464 | applying the lines of a block keeps the id and leaves every field as the last line writing it left it |
| Materials.BlocksNames | src/index.js:405-412 | the lines split into one block per `newmtl` line |
| Materials.MtlLineContents | src/index.js:404-465 | one line keeps every sealed and open material equal to a new material with its id and its block's lines applied |
| Materials.SealOpen | src/index.js:468-471 | defines the seal of the open material: stored under its name and appended to the list; nothing when no material is open |
| Materials.MtlDirective | src/index.js:404-465 | defines one tokenized line: `newmtl` seals the open material and opens a fresh one with the next id and the line's name; an unknown keyword changes nothing; any other directive fails when no material is open and otherwise applies to the open one |
| Materials.MtlFold | src/index.js:397-466 | defines the loop over the lines: blank and comment lines skipped, every other line one directive step, the first failure kept to the end |
| Materials.MtlFoldContents | src/index.js:397-466 | the loop keeps the materials in step with the blocks of the lines read so far |
| Materials.SealContents | src/index.js:468-471 | the final seal leaves one material per block, in order |
| Materials.MtlFields | src/index.js:404-471 | in a library that builds, material k is block k applied: each field holds what the last line of block k writing it wrote, and is unset when none does |
| Materials.DissolveExample | src/index.js:437-442 | `newmtl`, then `d`, then `Tr v` builds one material whose dissolve is `1 - v` |
| Materials.MtlLineInvariant | src/index.js:404-465 | one line keeps the table invariant: ids 0, 1, 2… in `newmtl` order, the list of sealed materials and a map holding the last material of each name |
| Materials.MtlFoldInvariant | src/index.js:397-466 | the loop keeps the table invariant over the `newmtl` names read so far |
| Materials.FailureSticks | src/index.js:396-466 | once a line has thrown, the lines after it change nothing |
| Materials.MtlTable | src/index.js:405-471 | after the final seal the list holds one material per `newmtl` line, material k has id k, and the map holds, for every name, the material of its last `newmtl` |
| Materials.MtlOutcome | src/index.js:392-472 | parsing fails exactly when some line sets a field with no `newmtl` line before it; otherwise it gives the table above |
| Materials.MtlFailure | src/index.js:413-464 | the error names the first setting line before any `newmtl` and its keyword |
| Materials.ReadLine | src/index.js:398-404 | the head of the loop body classifies one line |
| Materials.MtlParseLine | src/index.js:404-465 | the switch takes the loop state one classified line further, or fails |
| Materials.ParseMtl | src/index.js:392-472 | `parseMtl` computes the fold of its classified lines and then seals |
| Resolver.FixIndex | src/index.js:333-338 | a 1-based reference within the count and a negative one reaching back no further than the start both land in [0, n); the absent -1 lands at n − 1 |
| Resolver.FixIndexRelative | src/index.js:333-338 | `-k` and the 1-based `n - k + 1` name the same element, n − k |
| Resolver.AbsentSlot | src/index.js:516-518 | an absent slot resolves to the last element declared so far |
| Resolver.FixTriple | src/index.js:516-519 | defines a reference with each slot fixed by `fixIndex` against its own counter |
| Resolver.FixAll | src/index.js:515-520 | a face gives one fixed triple per reference |
| Resolver.FixAllAt | src/index.js:515-520 | fixed triple j is reference j with each slot fixed against its own counter |
| Resolver.ResolveStep | src/index.js:489-531 | defines one command of the resolver: `usemtl` of a known name sets the active id, of an unknown one nothing; `v`, `vn`, `vt` append 3, 3 and 2 numbers and bump their counter; `f` appends its fixed references, then one id and one vertex count per sub-face; `g` and `o` change nothing |
| Resolver.ResolveFold | src/index.js:479-532 | defines the resolver loop: one step per command, from empty arrays, zero counters and material 0 |
| Resolver.ResolveCounts | src/index.js:488-532 | the counters count the declarations; the arrays hold 3, 3 and 2 numbers per declaration; the face array holds every reference; the material-id and vertex-count arrays hold one entry per sub-face each |
| Resolver.ResolveSum | src/index.js:514-526 | the vertex counts add up to the length of the face array |
| Resolver.DefaultMaterial | src/index.js:488-496 | with no `usemtl` naming a known material the active id stays 0 |
| Resolver.NoMaterialIds | src/index.js:488-496 | with an empty table every sub-face gets material 0 |
| Resolver.ActiveMaterial | src/index.js:491-496 | the active id is that of the last `usemtl` naming a known material; unknown names change nothing |
| Resolver.FaceRefsResolved | src/index.js:515-520 | each reference of a face is fixed against the counters as they stand when that `f` line is reached |
| Resolver.IdsResolved | src/index.js:521-524 | each sub-face of a face gets the material active when that `f` line is reached |
| Resolver.NumVertsResolved | src/index.js:521-524 | each sub-face keeps its own vertex count |
| Resolver.ResolveCommand | src/index.js:489-529 | one command takes the resolver state one step further, inner loops included |
| Resolver.Resolve | src/index.js:488-532 | the resolver loop computes the fold of the stream |
| Shapes.Boundary | src/index.js:547-568 | defines a `g` or `o`: before any face only the pending name changes; otherwise the pending range is pushed when it is the first shape or non-empty, and the name changes |
| Shapes.SegStep | src/index.js:543-569 | defines one command of the segmenter: a face is counted, a `g` or `o` is a boundary, anything else is skipped |
| Shapes.Close | src/index.js:572-574 | defines the final push: the pending range is added when it holds a face |
| Shapes.Segments | src/index.js:536-574 | defines the shapes of a stream: the segmenter loop from no shapes and no name, then the final push |
| Shapes.SegmentTiles | src/index.js:536-574 | the shapes tile [0, number of face commands) one after another with positive lengths; with no face there is no shape |
| Shapes.SegmentNames | src/index.js:547-568 | every face of a shape carries the shape's name, the name of the last `g`/`o` before it (undefined when there is none) |
| Shapes.SegmentBreaks | src/index.js:547-568 | no face inside a shape has a `g`/`o` between it and the face before it, and every shape after the first begins at a face that has one: neighbouring faces share a shape exactly when no `g`/`o` separates them |
| Shapes.NoGroupsOneShape | src/index.js:572-574 | faces without any `g`/`o` make one shape with an undefined name covering them all |
| Shapes.TwoGroups | src/index.js:536-574 | `g A`, 2 faces, `g B`, 3 faces give (A, 0, 2) and (B, 2, 3) |
| Shapes.CountInvFold | src/index.js:543-569 | the loop keeps its counters and pending name consistent with the stream read so far |
| Shapes.NameInvFold | src/index.js:543-569 | the loop keeps every pushed shape, and the pending range, named after its faces' group |
| Shapes.InteriorInvFold | src/index.js:543-569 | no face inside a pushed shape or the pending range follows a boundary |
| Shapes.StartInvFold | src/index.js:543-569 | every pushed shape after the first starts right after a boundary |
| Shapes.Segment | src/index.js:536-574 | the segmentation loop and its final push compute the shapes of the stream |
| Shapes.Cut | src/index.js:547-568 | a `g`/`o` command takes the segmenter one step further |
| Loader.MaterialsOf | src/index.js:474-477 | defines the table `usemtl` is resolved against: that of the library when one is given and non-empty, its failure when it fails, otherwise empty |
| Loader.ResumeSpec | src/index.js:474-588 | defines what `resume` resolves with: the resolver's arrays over the commands, the first pass's totals and the shapes, or the library's failure |
| Loader.LoadSpec | src/index.js:590-599 | defines what `parseObj` resolves with: `resume` without a library when no `mtllib` is read, an error when one is read and no loader is given, otherwise `resume` on what the loader returns |
| Loader.Resume | src/index.js:474-588 | `resume` parses the library when present and non-empty, then resolves and segments |
| Loader.Load | src/index.js:340-600 | `parseObj` runs the first pass, fetches the library through the loader when one is named, and resumes |
| Loader.ResumeTotals | src/index.js:576-584 | `numFaces` is the length of the face array and `numFaceNumVerts` that of the material-id array; the arrays hold whole tuples |
| Loader.LoadTotals | src/index.js:576-584 | the same for every successful result of the model's `parseObj`, where `numFaces` is the corrected reference total; the source resolves NaN there once the text has an `f` line |
| Loader.ResumeShapes | src/index.js:536-574 | the shapes reported tile the face commands and carry their groups' names |
| Loader.DefaultIds | src/index.js:474-477 | without a library, or with an empty one, `resume` succeeds and every sub-face gets material 0 |
| Loader.LoadOutcome | src/index.js:590-599 | `parseObj` fails exactly when the text names a library and no loader is given, or the library sets a field before any `newmtl`; a text with no `mtllib` always succeeds |

## Left out

- Loader.LoadTotals / Loader.LoadSpec: `attrib.numFaces` is the corrected reference total. The source's `parseObj` resolves `numFaces: NaN` for any text with an `f` line, because each face adds an undefined `numF` (src/index.js:298, 370, 582; see Findings).
- `parseFloat` and `parseInt` are a parameter pair of total functions. NaN, JavaScript number parsing and floating point are not modelled.
- The Promise, the asynchronous `loader(...).then(...)` and the way a throw surfaces are not modelled. The model returns a `Result`. In the source, a rejected loader promise or a throw inside the `.then` callback leaves the returned promise pending forever. `Loader.LoadSpec` reports the second case as an error, and a rejected loader is not modelled at all.
- The file-reading script at the bottom of src/index.js (603-616) and example/example.js are file I/O and are not part of this model.
- The getters and setters of `ObjCommand` and `Material` are plain datatype fields here.
- The counters `numV`, `numVN`, `numVT` and `shapecnt`, and the segmenter's `prevShapeFaceOffset`, are written but never read, so they are not modelled.
- `MaxFacesPerFLine` is declared but never used, and is not modelled.
- `parseMtl` runs in place on the `matmap`/`matarray` closure variables. The model threads them through its state by value. A sealed material is never changed again, so no aliasing is lost.
- A `newmtl` with nothing after it names the material `""` (`[].join(" ")`). The open material's `matname` before any `newmtl` is `undefined` in the source and `""` here. It is never used before a `newmtl` sets it.
- The loops over lines are folds over lines classified first: tokenized and mapped to a keyword case. The methods classify each line with the same functions the folds use.
- The material records themselves are not part of the result `resume` resolves with, in the source as in the model. Only the ids reach the output.

Where the code and its documentation disagree, the model follows the code:

- A stream with faces but no `g`/`o` still gives one shape, with an undefined name.
- A later `mtllib` overwrites an earlier one.
- The per-sub-face vertex counts (`faceNumVerts`) are computed but not returned.
- `parseFace` is called without `triangulate`, so the loader never triangulates. `Commands.ParseObj` takes the flag, and `Loader.Load` passes `false`, as the call site does.
- A library whose text is empty is skipped (`if (mtlstr)`), exactly like a missing one.

## Findings

| source | as written | input that shows it | evidently intended | confidence | as-written member | corrected member |
|---|---|---|---|---|---|---|
| src/index.js:298 | `let numF = tokens.let;` reads a property that does not exist, so without triangulation the face's `numF` and its single vertex count are `undefined`, and the running `numF` total becomes NaN | the line `f 1 2 3 4` with `triangulate` unset (the only way `parseObj` calls `parseFace`) | the vertex count is the number of references read, `fs.length` (4 here) | not executed | Commands.UntriangulatedCountExample | Commands.FaceCountsSum |
