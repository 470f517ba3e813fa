# Models of the OBS Studio graphics back ends

This project models the parts of OBS Studio that compute something before the GPU or the toolkit gets to see it, and
proves what they promise. Native objects are opaque values with an identity and a descriptor; everything that the
operating system, a driver or a compiler answers is a parameter. `dafny verify dfyconfig.toml` checks all of it.

Code that works step by step is modelled by classes and methods with loops. Each of these methods is proved against
functions that describe its outcome (its text, its new state, its error), and the properties below are lemmas about
those functions or invariants that every method keeps.

## What is modelled

**The Metal shader transpiler.** Metal has no global uniforms, textures or samplers, so the transpiler lifts them: each
helper gets what it needs as extra parameters, and each call passes them on. `MetalTranspiler` describes the analysis
and the translation as functions of the tokens behind a cursor, and the class in `MetalShader` does them with the
cursor (with `ShaderTokens`). The results, in the order in which they build on each other:

- The analysis is the closure under calls (`MetalAnalysis`), and signatures and calls agree on which globals are
  appended; they agree on their order if and only if first uses follow the declarations (`MetalSignatures`,
  `MetalOrder`). `MetalCounterexample` and `MetalCounterexampleRun` have a shader for which they do not, and whose
  translation computes another value.
- The translation of a body ends where its analysis ends if and only if the tokens up to there are complete, or nothing
  stands behind them: each `mul`, `mad` and sampling call has its operands between its own parentheses, and a texture is
  followed by a method (`MetalBodies`). Otherwise it runs into the functions behind, which `MetalOperandExample` does
  with a `mul` of one operand. Complete bodies with matching brackets are translated without an error (`MetalAcceptance`).
- For complete tokens, what is emitted for a body is in scope (`MetalScoping`), except for comparisons, which are printed
  from raw tokens. It is in scope altogether if and only if none of these has a uniform as an operand
  (`MetalComparisons`). In `MetalComparisonExample` one has.
- What is emitted for a body (`MetalSyntax`, `MetalRendering`) spells the lifted body (`MetalLifting`, `MetalLexemes`).
  A parser with precedences for Metal (`MetalText`) reads the lifted body back if and only if each `mul` and `mad`
  stands where its operator may stand (`MetalReading`, `MetalEmission`), because `mul(a, b)` becomes `(a) * (b)`
  without parentheses around it. Behind a `/`, and under a member access, this is a real failure: `MetalDivisionExample`
  evaluates `12 / mul(2, 3)` to 2 and what is emitted for it to 18.
- An `int3` of one argument is translated into text that Metal cannot read, alone or in a `Load` (`MetalLoneInteger`),
  so that the constructors above have two or three.
- The lifted program, handed its globals, computes what the program with globals computes (`MetalMachines`,
  `MetalMeaning`), with no bound on loops, in every effect language that Metal realises (`MetalRefinement`).
  `MetalLanguages` has a pair of such languages over arbitrary primitives, each by the names it has itself, so that every
  respelled name has to mean the same on both sides. It also has what is not realised, exactly: matrices that are put
  together, products of vectors, integer vectors of a scalar and a vector. `MetalExample`, `MetalExampleText` and
  `MetalExampleRun` take the vertex shader of `libobs/data/default.effect` all the way.

**The uniform buffer of a Metal shader** (`UniformLayout`, `MetalUniforms`). The mask trick is rounding up; the offsets
are least, ordered, disjoint and inside the buffer, and they are those of the emitted struct, whose members have the
sizes and alignments of the Metal specification. Both statements have exceptions, which are given exactly. A uniform
whose type libobs does not know, and a texture of a vertex shader, has alignment zero, for which the mask sends it back
to offset zero, and the values behind it follow it there (`UniformLayout.ValuesOverlap`). And a `bool` takes four bytes
on one side and one on the other, which matters only to another `bool` right behind it (`UniformLayout.BoolsDisagree`).
An upload writes the values that were set since the last one and disturbs no others; a default is not written, because
resetting a uniform does not mark it.

**The GLSL writer** (`GlslWriter`, `GlslShaderParser`, `GlslPieces`, `GlslExactness`, `GlslOperands`, `GlslTails`,
`GlslParentheses`, `GlslMeaning`, `GlslParsing`, `GlslValues`, `GlslEscapes`, `GlslLanguages`, `GlslExample`). Mutually
recursive routines rewrite `mul`, `mad`, `saturate`, `sincos` and texture calls while sharing one cursor.
`GlslExactness` shows that they read exactly what they should and write balanced text; `GlslParsing` and `GlslValues`
show that the output, parsed with the usual precedences, has the value of the input. `GlslOperands` shows exactly when
the routines do not get to the end of an operand, which takes a later operand that begins with a parenthesis.
`GlslTails` shows what is written then, `GlslParentheses` that the tokens are the same inside plain parentheses, as in
`float4(mul(M, (v).xyz), 1.0)`, and `GlslEscapes` exactly when it is still right: if no infix operator stands behind
the parenthesis, for `mad` none as loose as `+`, for `sincos` nothing at all; for texture coordinates it always is. In
`GlslLanguages` an effect language and GLSL each have their own names for types, intrinsics and ways to sample
textures; they correspond, except for `fmod` and for matrices that are put together, of which it says exactly when they
are right.

**The GLSL interface** (`GlslInterface`, `GlslNames`, `GlslLinking`, `GlslInterfaceWriter`, `GlslRenaming`,
`GlslApart`, `GlslStages`). Structs are flattened into variables and put together again by a wrapper; then textual
replacement renames the variables so that two stages agree. Renaming a text is renaming each name and each piece of
other text in it alone (`GlslApart`), and so the final text is right if and only if each of these is. They are if no
variable's name stands in other text or in the name of a later variable; a name that begins with an earlier one is
right only by chance. The final texts of two stages then agree on each leaf of the struct that they share, unless a
vertex number comes before it. `GlslStagesExample` has two stages that meet, and `GlslTangledExample` a vertex shader
whose second input cannot be found any more.

**The Direct3D 11 device state** (`Direct3DState`, `StateCache`, `Direct3DDevice`, `Direct3DRun`). `Direct3DState` is a
device that caches nothing and binds everything at every draw. The class in `Direct3DDevice` has the dirty flags, the
saved state objects and the deferred render target views of the original, and `Direct3DRun.Run` shows that over any run
of calls, with presents that find the device lost, all draws see the same on both. `Direct3DSettings` says what they
see, setting by setting: what the last call made of it. Between two rebuilds each distinct descriptor is created at
most once: the descriptors of `StateCache.objects` are pairwise different in every valid state.

**Direct3D 11 shader constants** (`ConstantBuffer`, `Direct3DShader`). Packing is legal and pointwise least, and the
dirty flags never lose an update. The invariant is `UpToDate`: unless a flag is set, the GPU has what the current
values make up, if they make up a whole buffer at all. Uploads that fail clear flags, and keep it nevertheless.

**Direct3D 11 vertex input** (`InputLayout`, `VertexInput`, `VertexReads`). Slots of semantics against the order of
buffers, and what an input fetches at every vertex, from its mapping to the words in memory. The comment at
`libobs-d3d11/d3d11-shaderprocessor.cpp:122-126` says that slots always match the buffers; they do exactly for layouts
with a POSITION, and the model follows the code.

**The shader cache of Direct3D 11** (`ShaderCache`). The hash is named after FNV-1a, section 2 of draft-eastlake-fnv,
but bytes from 0x80 up are extended with their sign; the model follows the code, and `HashIsStandard` says when that
makes a difference. It catches every single-byte error.

**Rebuilding 2D textures** (`TextureRebuild`) after the loss of a device, with pairs of luma and chroma textures.

**Ordering on the Metal command queue** (`MetalQueue`). Draws and clears collect in a command buffer; staging copies
overtake it. Every copy still comes after each earlier draw or clear into its source. Other commands that conflict can
change their order, and `MetalQueue.InsertedExactly` says when. The invariants are that pending writes mean being in
flight, that anything in flight means an open command buffer, and that a render target means a changed one.

**The list of OpenGL programs** (`ProgramList`): nodes are linked and unlinked on the heap, through slots that stand
for the addresses of fields. The object list of the Direct3D 11 device (`libobs-d3d11/d3d11-subsystem.cpp:50-65`) is
linked and unlinked the same way.

**Theme dependencies** (`Themes`): resolution ends on every graph of themes, cyclic or dangling. A theme that survives
may depend on one that does not (`Themes.DependencyIsLost`).

**The filter for repeated log messages** (`LogFilter`): no message is lost.

## Model

| member | source | states |
|---|---|---|
| ShaderTokens.NextToken | libobs/util/cf-parser.h:96-106 | moves the cursor to the next token that is not blank, and fails exactly at the end of the tokens |
| MetalTranspiler.UniqueElements | libobs-metal/Sequence+Hashable.swift:21-24 | `unique` keeps every element and repeats none |
| MetalTranspiler.ScanIsFlat | libobs-metal/OBSShader.swift:674-733 | the recursive scan of a body, bracket by bracket, finds what one flat pass over the same tokens finds |
| MetalShader.OBSShader.AnalyzeFunctions | libobs-metal/OBSShader.swift:638-660 | the analysis fills in the entry of every function, in the order of the file, from the entries before it |
| MetalShader.OBSShader.AnalyzeFunction | libobs-metal/OBSShader.swift:674-733 | the scan with the shared cursor finds the needs of the tokens up to the end token, and stops there |
| MetalAnalysis.AnalysisIsClosure | libobs-metal/OBSShader.swift:638-733 | a function is found to need a global if and only if it, or a function it reaches through calls, names that global |
| MetalAnalysis.NeedsOfCallee | libobs-metal/OBSShader.swift:697-704 | what a callee needs, its caller needs |
| MetalAnalysis.NeedsAreDeclared | libobs-metal/OBSShader.swift:692-724 | only declared globals are needed |
| MetalSignatures.UniqueInOrder | libobs-metal/OBSShader.swift:654-655 | dropping repeats leaves names in declaration order if and only if their first uses are in that order |
| MetalSignatures.CallPassesSignature | libobs-metal/OBSShader.swift:1558-1596 | the arguments appended at a call of a helper are a permutation, without repeats, of the parameters appended to its signature |
| MetalSignatures.CallMatchesSignature | libobs-metal/OBSShader.swift:888-933 | they agree position by position if and only if the first uses, callees included, follow the order of declaration |
| MetalBodies.EndsExactly | libobs-metal/OBSShader.swift:1110-1236 | a translation that succeeds ends where the analysis ends if and only if the tokens up to there are complete: every `mul`, `mad` and sampling call has its operands between its own parentheses, and every texture is followed by a method, or nothing stands behind them; if they are not, it runs to the end of the file |
| MetalAcceptance.BodyIsTranslated | libobs-metal/OBSShader.swift:1110-1236 | a complete body whose brackets match, and whose lists for `int3` and `Load` have no commas too many, is translated, up to where the analysis ends |
| MetalScoping.EmittedBodyInScope | libobs-metal/OBSShader.swift:1110-1236 | if the tokens of a body are complete, every uniform, texture, sampler and passed-on argument that is emitted for it, comparisons aside, is a parameter of the emitted function |
| MetalComparisons.EmittedCompares | libobs-metal/OBSShader.swift:1322-1356 | for complete tokens, the comparisons that are emitted are exactly those of the bare names that a comparator follows directly, with the token behind the comparator as it is |
| MetalComparisons.ScopedExactly | libobs-metal/OBSShader.swift:1110-1356 | for complete tokens, everything that is emitted names only parameters if and only if no such bare name, and no token behind such a comparator, is a uniform |
| MetalComparisons.TranslatedIsScoped | libobs-metal/OBSShader.swift:1110-1356 | the same without the condition that the translation succeeds, for bodies that can be translated |
| MetalOperandExample.ExampleIsOutOfScope | libobs-metal/OBSShader.swift:1381-1400 | without complete tokens it fails: of `mul(a), a; }`, the second operand is taken from the next function, and so the text refers to a uniform although no comparison does |
| MetalComparisonExample.ExampleIsOutOfScope | libobs-metal/OBSShader.swift:1322-1356 | a whole shader with `return n<u;`: the uniform is emitted without its buffer, and the operator and the operand are emitted a second time |
| MetalScoping.SignatureEndsWithExtras | libobs-metal/OBSShader.swift:867-933 | an emitted signature is the declared parameters followed by the globals that the function needs; `main` gets all of them |
| MetalShader.OBSShader.TranspileFunctionContent | libobs-metal/OBSShader.swift:1110-1236 | the translation loop consumes and emits exactly what the suffix-based translation of the tokens behind the cursor does, errors included |
| MetalShader.OBSShader.TranspileToken | libobs-metal/OBSShader.swift:1188-1235 | one round of that loop: brackets with their contents, appended arguments, and single tokens |
| MetalShader.OBSShader.TranspileName | libobs-metal/OBSShader.swift:1122-1191 | one name: types, intrinsics, products, textures, uniforms, renamed structs and comparisons, in the order of the tests |
| MetalShader.OBSShader.ConvertToMTLMultiplication | libobs-metal/OBSShader.swift:1381-1400 | `mul(a, b)` with both operands translated, or the error of the first one that is malformed |
| MetalShader.OBSShader.ConvertToMTLMultiplyAdd | libobs-metal/OBSShader.swift:1405-1426 | `mad(a, b, c)` likewise |
| MetalShader.OBSShader.CreateSampler | libobs-metal/OBSShader.swift:1431-1460 | a texture name must be followed by a sampling method, whose call is translated |
| MetalShader.OBSShader.CreateTextureCall | libobs-metal/OBSShader.swift:1467-1552 | the five sampling methods with their operands, or the error |
| MetalRendering.TranspileBody | libobs-metal/OBSShader.swift:1110-1236 | the translation of a well-formed body stops at its closing brace and yields the text of the lifted body |
| MetalRendering.TranspileExpr | libobs-metal/OBSShader.swift:1110-1236 | the translation of an expression, wherever it stands, yields the text of the lifted expression and goes on behind it |
| MetalRendering.ComparatorsAreRelations | libobs-metal/OBSShader.swift:1325-1335 | what makes a comparison are the operators of equality and of order that Metal has, and nothing else |
| MetalLoneInteger.LoneIsQuoted | libobs-metal/OBSShader.swift:1205-1222 | `int3` of one argument: the argument comes out in brackets and quotation marks, for any argument without a comma |
| MetalLoneInteger.LoadIsQuoted | libobs-metal/OBSShader.swift:1522-1546 | a `Load` from one: they are in the coordinates of the `read`, too |
| MetalLoneInteger.LoneIsUnreadable | libobs-metal/OBSShader.swift:1205-1222 | neither text begins with an expression of Metal, whatever the argument and whatever stands behind |
| MetalRendering.SkipBody | libobs-metal/OBSShader.swift:674-733 | the analysis stops at the same closing brace |
| MetalEmission.EmittedIsLifted | libobs-metal/OBSShader.swift:1110-1236 | for a proper program translation succeeds and stops where the analysis does, and the lexemes emitted for a function are those of its lifted body |
| MetalEmission.EmittedIsInScope | libobs-metal/OBSShader.swift:1110-1356 | in a proper program everything that an emitted function names is a parameter of it |
| MetalLexemes.BodyText | libobs-metal/OBSShader.swift:1110-1552 | what is emitted for a body, declarations, branches, loops, products and texture calls included, spells the lifted body |
| MetalText.ReadsBack | libobs-metal/OBSShader.swift:1381-1426 | an expression of Metal reads back from its text, by precedence, if and only if every operand binds tightly enough |
| MetalText.BodyReadsBack | libobs-metal/OBSShader.swift:1110-1236 | the same for bodies |
| MetalReading.EmittedReadsBack | libobs-metal/OBSShader.swift:1381-1426 | if the tokens of a body are read as that body, what is emitted for it is read as the lifted body if and only if each `mul` and `mad` stands where a `*` or a `+` may stand |
| MetalReading.DividedByProduct | libobs-metal/OBSShader.swift:1381-1400 | `a / mul(b, c)` is emitted so that it is read as `(a / b) * c`: the product has no parentheses of its own |
| MetalDivisionExample.SourceDivides | libobs-metal/OBSShader.swift:1381-1400 | `12 / mul(2, 3)` is 2 |
| MetalDivisionExample.DivisionDiffers | libobs-metal/OBSShader.swift:1381-1400 | what is emitted for it is read as an expression that is 18 |
| MetalEmission.EmittedReads | libobs-metal/OBSShader.swift:857-1003 | the same for the functions of a proper program: the emitted text determines the lifted program exactly then |
| MetalMeaning.RunSame | libobs-metal/OBSShader.swift:857-1003 | a lifted function, handed the globals it needs, returns what the function with global variables returns in the effect language as Metal realises it, over calls, branches, loops, products, member assignments and all sampling methods |
| MetalRefinement.EmittedYields | libobs-metal/OBSShader.swift:857-1003 | without a bound on the loops: the lifted function yields a value if and only if the function does, and it yields whatever the function yields in any effect language that Metal realises |
| MetalRefinement.RunBelow | libobs-metal/OBSShader.swift:857-1003 | a result stays the same in a language that defines more, and with loops that may go round more often |
| MetalRefinement.YieldsOne | libobs-metal/OBSShader.swift:857-1003 | a function yields at most one value |
| MetalLanguages.NamesMeanTheSame | libobs-metal/OBSShader.swift:1244-1376 | every type and intrinsic means in Metal, as it is spelled there, what it means in an effect file: half floats and short integers of any length, textures, slopes, fractions and mixing, each with a meaning of its own |
| MetalLanguages.TypesMeanTheSame | libobs-metal/OBSShader.swift:1244-1295 | so does the type of every variable, also of an output struct, which has another name |
| MetalLanguages.RefusedExactly | libobs-metal/OBSShader.swift:1244-1376 | a name is refused if and only if Metal has nothing for it |
| MetalLanguages.MetalRealises | libobs-metal/OBSShader.swift:1361-1552 | over any primitives, an effect language and a Metal that realises it, for every shader: each knows only its own names, and there are products, conversions, initial values, loads, and all ways to choose a level of detail |
| MetalLanguages.LoadAtZero | libobs-metal/OBSShader.swift:1467-1552 | a `Load` whose coordinate is one value is read at level zero, whatever its third component is |
| MetalLanguages.IntegersAgreeExactly | libobs-metal/OBSShader.swift:1467-1552 | an `int3` of two arguments is right if and only if the first one has two components |
| MetalLanguages.VectorProductsAgreeExactly | libobs-metal/OBSShader.swift:1381-1400 | `mul` of two vectors is right if and only if they have one component: what is emitted multiplies component by component |
| MetalLanguages.MatricesAgreeExactly | libobs-metal/OBSShader.swift:1244-1295 | a matrix put together from its components is right if and only if it is symmetric: rows become columns |
| MetalMeaning.CallPasses | libobs-metal/OBSShader.swift:1558-1596 | a call passes on exactly the extra parameters of its callee, and the caller has them |
| MetalOrder.HelperGetsItsGlobals | libobs-metal/OBSShader.swift:1558-1596 | a helper's frame binds each extra parameter to the right global, whatever the globals are, if and only if its first uses follow the declarations |
| MetalOrder.AppendedToNothing | libobs-metal/OBSShader.swift:1220-1228 | appending arguments puts a comma first exactly when a helper with needs is called without arguments |
| MetalExample.ExampleIsProper | libobs/data/default.effect:18-24 | the usual vertex shader, with a `mul`, assignments to members, a variable without a value, and a struct that is both input and output, is a proper program |
| MetalExample.LiftedExample | libobs/data/default.effect:18-24 | what it is lifted to: both functions get the uniforms, the call passes them on, and the output has its own struct |
| MetalExampleText.ExampleIsRead | libobs/data/default.effect:18-24 | what is emitted for it is read as that |
| MetalExampleText.ExampleText | libobs/data/default.effect:18-24 | the very lexemes that are emitted for it |
| MetalExampleRun.ExampleRuns | libobs/data/default.effect:18-24 | whatever Metal's operations are, the emitted program gives the output with the projected position and the coordinates, and so does the source |
| MetalCounterexample.SwappedIsProper | libobs-metal/OBSShader.swift:1558-1596 | a proper shader with two textures, whose helper uses the second one first |
| MetalCounterexample.SwappedIsOutOfOrder | libobs-metal/OBSShader.swift:1558-1596 | its first uses do not follow the declarations |
| MetalCounterexample.LiftedSwapped | libobs-metal/OBSShader.swift:1558-1596 | the helper's signature has the textures in the order of declaration, the call has them in the order of use |
| MetalCounterexampleRun.SwappedDiffers | libobs-metal/OBSShader.swift:1558-1596 | the emitted program computes the negative of what the source computes: the order is needed |
| UniformLayout.MaskClearsLowBits | libobs-metal/OBSShader.swift:212-212 | for a power of two, masking with the complement of one less rounds down to a multiple |
| UniformLayout.AlignedIsLeast | libobs-metal/OBSShader.swift:212-212 | the mask expression is the least multiple of the alignment at or after the size so far |
| UniformLayout.OffsetIsLeast | libobs-metal/OBSShader.swift:187-231 | each uniform is at the least multiple of its alignment at or after the end of those before it, textures left out |
| UniformLayout.OffsetsAreInOrder | libobs-metal/OBSShader.swift:193-231 | the values are in order and disjoint if and only if none reaches beyond the room of a uniform without an alignment (a string, an unknown type, a texture of a vertex shader) that stands last before a later value |
| UniformLayout.ValuesOverlap | libobs-metal/OBSShader.swift:205-213 | a value, a uniform of an unknown type and another value: the second value is laid over the first |
| UniformLayout.StartsAgain | libobs-metal/OBSShader.swift:205-213 | such a uniform is placed at offset zero again, and the next value at the end of its room: zero, or 16 for a texture |
| UniformLayout.ValuesFit | libobs-metal/MetalShader.swift:110-111 | without such a uniform behind it, a value lies within the uniform buffer, whose size is rounded up to 16 |
| UniformLayout.ValueIsCutOff | libobs-metal/MetalShader.swift:110-111 | with one at the end, it does if and only if it lies within that uniform's room |
| UniformLayout.TexturesKeepSlots | libobs-metal/OBSShader.swift:215-235 | textures that are bound have different slots, all of them below the number of textures |
| UniformLayout.SizeByNumbers | libobs-metal/libobs+Extensions.swift:98-118 | a value is four bytes for each number; a texture is a reference and a flag |
| UniformLayout.MembersAre | libobs-metal/libobs+Extensions.swift:120-163 | the room and alignment of a value are those that the Metal specification gives to vectors and matrices, by powers of two; a `bool` is the only exception |
| UniformLayout.LayoutsAgreeExactly | libobs-metal/OBSShader.swift:738-767 | the offsets are those of the members of a struct by that specification if and only if no `bool` follows another `bool` directly |
| UniformLayout.BoolsDisagree | libobs-metal/OBSShader.swift:738-767 | of two `bool` uniforms in a row, the second is at byte 4 for the host and at byte 1 for the shader |
| UniformLayout.BufferHoldsStruct | libobs-metal/MetalShader.swift:110-111 | the buffer is at least as large as the emitted struct |
| MetalUniforms.BuildMetadata | libobs-metal/OBSShader.swift:184-238 | the list of uniforms has these offsets, slots and default values, and nothing is marked as changed; textures are left out of the buffer in fragment shaders only |
| MetalUniforms.Declare | libobs-metal/OBSShader.swift:201-229 | one round of that loop |
| MetalUniforms.ShaderUniform.SetVal | libobs-metal/metal-shader.swift:544-563 | a value is accepted exactly if it has the size of the type, is marked then, and has room |
| MetalUniforms.ShaderUniform.SetParameter | libobs-metal/MetalShader.swift:58-70 | a value set is the current one and is marked |
| MetalUniforms.ShaderUniform.SetDefault | libobs-metal/metal-shader.swift:571-577 | the default becomes the current value without being marked |
| MetalUniforms.MetalShader.constructor | libobs-metal/MetalShader.swift:104-112 | a new buffer has the rounded size and is all zeros |
| MetalUniforms.MetalShader.UpdateUniform | libobs-metal/MetalShader.swift:166-205 | the bytes of one marked value are replaced, those of others and of textures are not, and the mark is cleared |
| MetalUniforms.MetalShader.UploadShaderParameters | libobs-metal/MetalShader.swift:233-236 | an upload writes all marked values, one after the other, and clears all marks |
| MetalUniforms.MetalShader.UploadIsExact | libobs-metal/MetalShader.swift:166-205 | after an upload a value is in its place if and only if it was marked or was there before: no write disturbs another |
| MetalUniforms.WrittenIsExact | libobs-metal/MetalShader.swift:195-202 | the same for any writes to disjoint ranges |
| MetalUniforms.RestIsUntouched | libobs-metal/MetalShader.swift:195-202 | a byte outside all marked values stays as it was |
| MetalUniforms.MetalShader.ValuesHaveRoom | libobs-metal/MetalShader.swift:195-202 | values of the right size stay within the buffer and apart from each other |
| MetalUniforms.MetalShader.DefaultsAreNotWritten | libobs-metal/metal-shader.swift:571-577 | after the first upload the bytes of every uniform that nobody set are zero, whatever its default is |
| MetalQueue.CopiesSeeRendering | libobs-metal/MetalDevice.swift:604-773 | on the GPU's timeline, a copy comes after every earlier draw or clear into its source |
| MetalQueue.Inserted | libobs-metal/MetalDevice.swift:637-653 | a staged command may overtake the open command buffer, as far as copies of draws and clears are concerned, if nothing in it writes its source |
| MetalQueue.InsertedExactly | libobs-metal/MetalDevice.swift:637-729 | it leaves all commands that conflict, because one writes what the other reads or writes, in their order if and only if it conflicts with nothing in the open command buffer |
| MetalQueue.StagingOvertakes | libobs-metal/MetalDevice.swift:637-729 | it may conflict: an upload overtakes an open draw into the same texture, and a staged copy an open copy into its source |
| MetalQueue.MetalDevice.Draw | libobs-metal/MetalDevice.swift:351-416 | a draw into the current target is recorded behind the open commands and marks the target; without a target, vertices or one of the shaders, or on failure, nothing is recorded |
| MetalQueue.MetalDevice.Clear | libobs-metal/MetalDevice.swift:209-304 | the same for a clear |
| MetalQueue.MetalDevice.MarkPending | libobs-metal/MetalDevice.swift:387-388 | the target has pending writes and is in flight, both or neither |
| MetalQueue.MetalDevice.EnsureCommandBuffer | libobs-metal/MetalDevice.swift:537-545 | there is an open command buffer afterwards, or the call fails and changes nothing |
| MetalQueue.MetalDevice.FinishPendingCommands | libobs-metal/MetalDevice.swift:578-591 | the open commands are on the queue, in their order, and no target is in flight |
| MetalQueue.MetalDevice.CopyTexture | libobs-metal/MetalDevice.swift:604-620 | a copy through the open command buffer comes after everything recorded in it |
| MetalQueue.MetalDevice.StageTexture | libobs-metal/MetalDevice.swift:637-696 | a copy in a command buffer of its own: pending writes to its source are committed first; the order of conflicting commands is kept if and only if no open command is left that conflicts with it |
| MetalQueue.MetalDevice.StageBufferToTexture | libobs-metal/MetalDevice.swift:706-729 | an upload in a command buffer of its own leaves the open one as it is, and the order of conflicting commands if and only if no open command reads or writes the texture |
| MetalQueue.MetalDevice.SetRenderTarget | libobs-metal/metal-subsystem.swift:357-381 | selecting a target counts as a change, taking it away does not |
| MetalQueue.MetalDevice.EnableFramebufferSrgb | libobs-metal/metal-subsystem.swift:396-403 | switching to sRGB counts as a change |
| MetalQueue.MetalDevice.LoadSwapChain | libobs-metal/metal-swapchain.swift:166-257 | the swap chain's target texture becomes the render target, unless it cannot be made |
| MetalQueue.MetalDevice.BeginFrame | libobs-metal/metal-subsystem.swift:276-286 | a frame begins without a render target |
| GlslShaderParser.GlShaderParser.Advance | libobs/util/cf-parser.h:96-106 | the shared cursor moves to the next token that is not blank, or fails |
| GlslShaderParser.GlShaderParser.WriteFunctionContents | libobs-opengl/gl-shaderparser.c:492-523 | the routine with the shared cursor appends the text, leaves the counters and stops where the suffix-based writer does |
| GlslShaderParser.GlShaderParser.WriteItem | libobs-opengl/gl-shaderparser.c:499-520 | one round of its loop |
| GlslShaderParser.GlShaderParser.WriteIntrinsicToken | libobs-opengl/gl-shaderparser.c:451-490 | the dispatch on names, where a failed attempt may have written something and leaves the caller's cursor |
| GlslShaderParser.GlShaderParser.WriteMadCall | libobs-opengl/gl-shaderparser.c:271-293 | `mad`, with three recursive calls on the shared cursor |
| GlslShaderParser.GlShaderParser.WriteMulCall | libobs-opengl/gl-shaderparser.c:295-314 | `mul`, with two of them |
| GlslShaderParser.GlShaderParser.WriteSaturateCall | libobs-opengl/gl-shaderparser.c:360-376 | `saturate` |
| GlslShaderParser.GlShaderParser.WriteSincosCall | libobs-opengl/gl-shaderparser.c:316-358 | `sincos`, whose number is taken before its operands are written |
| GlslShaderParser.GlShaderParser.WriteTextureCode | libobs-opengl/gl-shaderparser.c:410-449 | method calls on textures |
| GlslShaderParser.GlShaderParser.WriteTextureCallHead | libobs-opengl/gl-shaderparser.c:378-407 | the head of such a call, which binds the sampler; it writes nothing if it fails |
| GlslExactness.BodyIsExact | libobs-opengl/gl-shaderparser.c:492-523 | for every balanced body in which no later operand begins with a bracket that it cannot take, the writer reads exactly the body and writes its image, at any depth |
| GlslExactness.LoopOver | libobs-opengl/gl-shaderparser.c:499-520 | the loop writes a list of pieces and goes on behind it with the state they leave |
| GlslExactness.FirstOperand | libobs-opengl/gl-shaderparser.c:492-523 | the contents of a bracket, or a first operand |
| GlslExactness.LaterOperand | libobs-opengl/gl-shaderparser.c:284-288 | an operand behind a comma |
| GlslExactness.ReadText | libobs-opengl/gl-shaderparser.c:271-376 | the text of any image reads back as that image |
| GlslExactness.OutputIsBalanced | libobs-opengl/gl-shaderparser.c:492-523 | the written text has matching brackets, and they are those of the image |
| GlslOperands.LastOperandIsExact | libobs-opengl/gl-shaderparser.c:308-310 | for a last operand or texture coordinates, the writer reaches the call's closing parenthesis if and only if they do not begin with a parenthesis |
| GlslOperands.MiddleOperandIsExact | libobs-opengl/gl-shaderparser.c:284-286 | for the second operand of `mad` or `sincos`, it reaches the comma if and only if the operand does not begin with a parenthesis that holds a comma |
| GlslOperands.OperandTailEscapes | libobs-opengl/gl-shaderparser.c:295-314 | what `mul(a, (b) tail)` becomes in a body, in parentheses, or in an operand: the rest of the operand ends up outside of the product |
| GlslEscapes.MulIsRight | libobs-opengl/gl-shaderparser.c:295-314 | for any tail, that is read as the product it should be, up to parentheses, if and only if no infix operator stands in the operand outside its brackets |
| GlslTails.MadTailEscapes | libobs-opengl/gl-shaderparser.c:271-293 | what `mad(a, b, (c) tail)` becomes, likewise: the rest of the operand ends up outside of the sum |
| GlslEscapes.MadIsRight | libobs-opengl/gl-shaderparser.c:271-293 | that is read as the sum it should be if and only if no infix operator as loose as `+` stands in the operand outside its brackets |
| GlslTails.SincosTailEscapes | libobs-opengl/gl-shaderparser.c:316-358 | what `sincos(a, b, (c) tail)` becomes: the last assignment stands inside the parenthesis, the tail behind the cosine |
| GlslEscapes.SincosIsRight | libobs-opengl/gl-shaderparser.c:316-358 | the cosine goes to where it should if and only if nothing stands behind the parenthesis |
| GlslTails.CoordinatesAreRight | libobs-opengl/gl-shaderparser.c:410-449 | texture coordinates that begin with a parenthesis are written as they should be, whatever stands behind it |
| GlslParentheses.MulAround | libobs-opengl/gl-shaderparser.c:295-314 | inside any number of plain parentheses the tokens written are the same, and each of these parentheses ends one early |
| GlslParentheses.MadAround | libobs-opengl/gl-shaderparser.c:271-293 | likewise for `mad` |
| GlslParentheses.CoordinatesAround | libobs-opengl/gl-shaderparser.c:410-449 | texture coordinates are right there, too |
| GlslEscapes.ReadsValue | libobs-opengl/gl-shaderparser.c:451-490 | what is read as the translated expression has the value of the original |
| GlslOperands.NamesDiffer | libobs-opengl/gl-shaderparser.c:329-329 | different numbers give different variable names |
| GlslOperands.VariablesAreFresh | libobs-opengl/gl-shaderparser.c:316-358 | each `sincos` declares and uses a variable of its own: one declaration, one sine, one cosine for each number handed out, none for others |
| GlslMeaning.StripImageList | libobs-opengl/gl-shaderparser.c:271-376 | writing commutes with leaving out the blanks |
| GlslParsing.ParseCore | libobs-opengl/gl-shaderparser.c:271-376 | if a body parses as an expression, what is written for it parses as the translated one: `mul` as a parenthesised product, `mad` as a parenthesised product and sum, at any depth |
| GlslValues.TranslationKeepsValue | libobs-opengl/gl-shaderparser.c:451-490 | the translated expression has the value of the original in any pair of languages whose operations correspond |
| GlslValues.WrittenValue | libobs-opengl/gl-shaderparser.c:492-523 | from tokens to value: the brackets of what is written match, it parses, and it has the value of what was read |
| GlslValues.EscapedSum | libobs-opengl/gl-shaderparser.c:295-314 | what `mul(a, (b) + c)` is written as, and how that parses |
| GlslValues.EscapedSumValue | libobs-opengl/gl-shaderparser.c:295-314 | over the integers it keeps its value if and only if `a` is one or `c` is zero |
| GlslLanguages.NamesMeanTheSame | libobs-opengl/gl-shaderparser.c:53-91 | a type or intrinsic means in GLSL, as it is spelled there, what it means in an effect file, if and only if it is none of `fmod`, `float3x3`, `float3x4` and `float4x4` |
| GlslLanguages.DeclaredTypesMeanTheSame | libobs-opengl/gl-shaderparser.c:93-97 | the type of a declaration is spelled so that it means the same, unless it is a matrix |
| GlslLanguages.MethodsAgree | libobs-opengl/gl-shaderparser.c:378-449 | what is written for a sampling method does what the method does, for every kind of texture: with the bound sampler, and with level, bias and gradients told apart |
| GlslLanguages.LanguagesAgree | libobs-opengl/gl-shaderparser.c:451-490 | over any primitives, an effect language and a GLSL, each by its own names, correspond in the way `GlslValues.TranslationKeepsValue` asks for |
| GlslLanguages.RemaindersAgreeExactly | libobs-opengl/gl-shaderparser.c:462-463 | `fmod` is right if and only if the quotient is not negative or is whole |
| GlslLanguages.MatricesAgreeExactly | libobs-opengl/gl-shaderparser.c:73-78 | a square matrix put together from its components is right if and only if it is symmetric; one of three by four never is |
| GlslLanguages.VectorProductsAgreeExactly | libobs-opengl/gl-shaderparser.c:295-314 | `mul` of two vectors is right if and only if they have one component |
| GlslExample.LoadIsPortable | libobs-opengl/gl-shaderparser.c:433-436 | `image.Load(int3(pos, 0.0))` of a 2D texture is written as `obs_load_2d`, which reads the texel that is meant |
| GlslExample.ExampleIsPortable | libobs-opengl/gl-shaderparser.c:295-314 | what is written for `mul(ViewProj, saturate(lerp(pos, 1.0, frac(t))))` is the product of the matrix and what is mixed and clamped, whatever the machine has |
| GlslInterface.DeclaredPerLeaf | libobs-opengl/gl-shaderparser.c:135-189 | one variable is declared for each leaf of a parameter or result that GLSL has no variable for, named after the way to it |
| GlslInterface.ReadPerLeaf | libobs-opengl/gl-shaderparser.c:576-636 | every leaf of the parameter is assigned exactly once, in order, from its variable or from GLSL's own |
| GlslInterface.WrittenPerLeaf | libobs-opengl/gl-shaderparser.c:564-649 | every leaf of the result is passed on exactly once, to its variable or to `gl_Position` |
| GlslNames.DeclaredNamesDiffer | libobs-opengl/gl-shaderparser.c:135-189 | if the members of every struct have different names without underscores, all variables of a parameter have different names |
| GlslNames.NamesMayCollide | libobs-opengl/gl-shaderparser.c:135-189 | with underscores they need not: a member `a_b`, and `b` inside a member `a` |
| GlslLinking.WrapperUsesDeclared | libobs-opengl/gl-shaderparser.c:155-189 | the variables declared are exactly those the wrapper reads or writes, in the same order |
| GlslLinking.StagesLink | libobs-opengl/gl-shaderparser.c:696-718 | a vertex shader and a pixel shader that share a struct call a leaf the same if and only if no VERTEXID comes before it |
| GlslLinking.VertexNumberShifts | libobs-opengl/gl-shaderparser.c:696-718 | with a VERTEXID in front they call it differently: its number is not the same for the two |
| GlslLinking.LeavesAreDistinct | libobs-opengl/gl-shaderparser.c:696-718 | different leaves get different link names |
| GlslLinking.NewNameIsLinkName | libobs-opengl/gl-shaderparser.c:700-716 | the number a variable gets among all of the shader's variables is the one the link name says |
| GlslLinking.ReplaceRenames | libobs/util/dstr.c:601-672 | replacing a name that occurs only where it is meant renames that variable and nothing else |
| GlslLinking.RenamingIsExact | libobs-opengl/gl-shaderparser.c:696-718 | if that holds at each step, renaming gives every variable its new name everywhere and changes nothing else |
| GlslRenaming.RenamableExactly | libobs-opengl/gl-shaderparser.c:696-718 | it holds at each step if and only if, before any renaming, no variable's name stands in other text or in the name of a later variable |
| GlslApart.RenamedAlone | libobs-opengl/gl-shaderparser.c:696-718 | renaming a text is renaming every name and every piece of other text in it alone, whatever the names are |
| GlslApart.FinalExactly | libobs-opengl/gl-shaderparser.c:696-718 | so the text has the new names exactly where the old ones were meant, and all else as it was, if and only if each name alone becomes its new name and each piece of other text alone stays |
| GlslApart.TailStays | libobs-opengl/gl-shaderparser.c:696-718 | a name that begins with an earlier one becomes the new name of that one with its own end behind it; this is right if and only if its own new name is the same |
| GlslApart.TenthByChance | libobs-opengl/gl-shaderparser.c:696-718 | which can happen: if the tenth input after the first is called like the first and a zero |
| GlslStages.EmittedIsSpelled | libobs-opengl/gl-shaderparser.c:720-755 | the declarations, the wrapper and the call are text in which each variable stands exactly where it is meant |
| GlslStages.FinalTextIsExact | libobs-opengl/gl-shaderparser.c:696-755 | the final text of a shader has the new names exactly there, and the rest as it was, if and only if each name and each piece of other text is right when it is renamed alone |
| GlslStages.UntangledIsExact | libobs-opengl/gl-shaderparser.c:696-755 | they are if no name stands in other text or in a later name |
| GlslStages.FinalTextsLink | libobs-opengl/gl-shaderparser.c:576-755 | in the final texts of a vertex shader and a pixel shader that share a struct, the variables of a leaf that is passed on have the same name if and only if no VERTEXID comes before it |
| GlslStagesExample.StagesMeet | libobs-opengl/gl-shaderparser.c:576-755 | a vertex and a pixel shader that meet all these conditions, and whose texture coordinates meet |
| GlslTangledExample.IsTangled | libobs-opengl/gl-shaderparser.c:696-718 | in a vertex shader with inputs `tex` and `tex2` the first name stands in the second |
| GlslTangledExample.SecondIsWrong | libobs-opengl/gl-shaderparser.c:696-718 | the second is not right when it is renamed alone, and so the final text is not what it should be |
| GlslTangledExample.SecondIsLost | libobs-opengl/gl-shader.c:532-547 | the name by which its second input is looked up when it is linked is nowhere in its final text |
| GlslInterfaceWriter.GlInterfaceWriter.WriteStorageVar | libobs-opengl/gl-shaderparser.c:155-189 | appends the declarations and the attributes of a variable |
| GlslInterfaceWriter.GlInterfaceWriter.UnwrapStorageStruct | libobs-opengl/gl-shaderparser.c:135-153 | those of a struct's members, in order |
| GlslInterfaceWriter.GlInterfaceWriter.WriteMainStorageAssign | libobs-opengl/gl-shaderparser.c:576-631 | appends the assignments between a parameter or result and its variables |
| GlslInterfaceWriter.GlInterfaceWriter.RenameAttributes | libobs-opengl/gl-shaderparser.c:696-718 | renames the attributes one after the other, in the list and in the text |
| Direct3DState.DescriptorsAreInjective | libobs-d3d11/d3d11-subsystem.cpp:680-762 | different states have different native descriptors, so a saved object can be found by its state |
| Direct3DState.DrawsToSelectedTexture | libobs-d3d11/d3d11-subsystem.cpp:860-879 | a draw after selecting a 2D texture renders to its view if and only if it has one; otherwise it renders to what was bound before |
| Direct3DState.DrawsToStaleTexture | libobs-d3d11/d3d11-subsystem.cpp:860-879 | a state from which what is drawn for a texture without a view is drawn onto the texture selected before it |
| StateCache.StateCache.Set | libobs-d3d11/d3d11-subsystem.cpp:2342-2349 | a setter keeps the cache sound and marks the state only if it is another one |
| StateCache.StateCache.Update | libobs-d3d11/d3d11-subsystem.cpp:790-814 | afterwards draws see the descriptor of the current state; a native object is created only for a descriptor that has none, so each is created at most once |
| StateCache.StateCache.Rebuild | libobs-d3d11/d3d11-rebuild.cpp:538-551 | after the loss of a device, every saved descriptor has one new object, and none is bound |
| Direct3DDevice.GsDevice.EnableBlending | libobs-d3d11/d3d11-subsystem.cpp:2356-2363 | changes that part of the blend state and nothing else |
| Direct3DDevice.GsDevice.EnableColor | libobs-d3d11/d3d11-subsystem.cpp:2392-2403 | likewise |
| Direct3DDevice.GsDevice.BlendFunctionSeparate | libobs-d3d11/d3d11-subsystem.cpp:2418-2430 | likewise |
| Direct3DDevice.GsDevice.BlendOp | libobs-d3d11/d3d11-subsystem.cpp:2432-2439 | likewise |
| Direct3DDevice.GsDevice.SetCullMode | libobs-d3d11/d3d11-subsystem.cpp:2342-2349 | likewise for the raster state |
| Direct3DDevice.GsDevice.SetScissorRect | libobs-d3d11/d3d11-subsystem.cpp:2514-2529 | likewise |
| Direct3DDevice.GsDevice.EnableDepthTest | libobs-d3d11/d3d11-subsystem.cpp:2365-2372 | likewise for the depth and stencil state |
| Direct3DDevice.GsDevice.EnableStencilTest | libobs-d3d11/d3d11-subsystem.cpp:2374-2381 | likewise |
| Direct3DDevice.GsDevice.EnableStencilWrite | libobs-d3d11/d3d11-subsystem.cpp:2383-2390 | likewise |
| Direct3DDevice.GsDevice.DepthFunction | libobs-d3d11/d3d11-subsystem.cpp:2441-2448 | likewise |
| Direct3DDevice.GsDevice.StencilFunction | libobs-d3d11/d3d11-subsystem.cpp:2450-2467 | changes the test of the sides asked for, one after the other |
| Direct3DDevice.GsDevice.StencilOp | libobs-d3d11/d3d11-subsystem.cpp:2469-2490 | changes the operations of the sides asked for |
| Direct3DDevice.GsDevice.SetRenderTarget | libobs-d3d11/d3d11-subsystem.cpp:1980-2018 | does what selecting a target does on the device that caches nothing, while deferring the native call |
| Direct3DDevice.GsDevice.SetCubeRenderTarget | libobs-d3d11/d3d11-subsystem.cpp:2020-2050 | likewise for a side of a cube |
| Direct3DDevice.GsDevice.EnableFramebufferSrgb | libobs-d3d11/d3d11-subsystem.cpp:2052-2058 | likewise for sRGB rendering |
| Direct3DDevice.GsDevice.LoadSwapChain | libobs-d3d11/d3d11-subsystem.cpp:2259-2280 | likewise for loading a swap chain |
| Direct3DDevice.GsDevice.Resize | libobs-d3d11/d3d11-subsystem.cpp:1459-1472 | likewise for a resize that succeeds |
| Direct3DDevice.GsDevice.Present | libobs-d3d11/d3d11-subsystem.cpp:2320-2335 | likewise for presenting, with or without a lost device |
| Direct3DDevice.GsDevice.RebuildDevice | libobs-d3d11/d3d11-rebuild.cpp:383-551 | a rebuilt device has all states, and nothing is selected or bound |
| Direct3DDevice.GsDevice.Deselect | libobs-d3d11/d3d11-rebuild.cpp:528-544 | nothing is selected after a rebuild |
| Direct3DDevice.GsDevice.FlushOutputViews | libobs-d3d11/d3d11-subsystem.cpp:860-879 | binds the views of the current target, side and sRGB mode, unless they are bound or the target has none |
| Direct3DDevice.GsDevice.Draw | libobs-d3d11/d3d11-subsystem.cpp:2197-2251 | a draw that is neither rejected nor failed sees objects made from the current states and the views of the current target |
| Direct3DDevice.GsDevice.UpdateStates | libobs-d3d11/d3d11-subsystem.cpp:764-841 | brings the three native state objects up to date |
| Direct3DRun.Perform | libobs-d3d11/d3d11-subsystem.cpp:2197-2335 | each call keeps the device in step with the one that binds everything at every draw |
| Direct3DRun.Run | libobs-d3d11/d3d11-subsystem.cpp:2197-2529 | over every run of calls, all draws see what they would see on the device that binds everything at every draw |
| Direct3DSettings.DrawsShowSettings | libobs-d3d11/d3d11-subsystem.cpp:680-762 | over every run, each draw shows, of every setting, what the last call before it made of it: both blend factors and their alpha, a bit for each channel, culling, scissors, depth, and the tests and operations of either stencil side, without reference to how descriptors are made |
| Direct3DSettings.SettingIsLast | libobs-d3d11/d3d11-subsystem.cpp:2342-2490 | what a setting is after some calls is what the last call for it said |
| ConstantBuffer.PackIsLegal | libobs-d3d11/d3d11-shader.cpp:135-180 | packing obeys the register rule: no value of at most 16 bytes crosses a register, larger ones start one, and all are in order and disjoint |
| ConstantBuffer.PackIsLeast | libobs-d3d11/d3d11-shader.cpp:135-180 | no legal placement in that order puts any constant earlier |
| ConstantBuffer.SizeByComponents | libobs-d3d11/d3d11-shader.cpp:139-166 | a constant is four bytes for each number, times the length of its array |
| ConstantBuffer.AssemblyIsLayout | libobs-d3d11/d3d11-shader.cpp:306-320 | the assembled bytes fill the buffer, with each value at its place and zeros elsewhere |
| ConstantBuffer.PackedBuffer | libobs-d3d11/d3d11-shader.cpp:343-354 | the same for a whole buffer |
| ConstantBuffer.TwoVectors | libobs-d3d11/d3d11-shader.cpp:135-180 | two `float3` values fill their buffer of 28 bytes |
| ConstantBuffer.PackTwice | libobs-d3d11/d3d11-shader.cpp:135-180 | packing again moves nothing |
| Direct3DShader.GsShader.BuildConstantBuffer | libobs-d3d11/d3d11-shader.cpp:133-199 | the parameters are packed and have their defaults, and no update is lost |
| Direct3DShader.GsShader.PlaceParams | libobs-d3d11/d3d11-shader.cpp:135-180 | the packing loop gives every parameter its place and the buffer its size |
| Direct3DShader.GsShader.SetDefaults | libobs-d3d11/d3d11-shader.cpp:197-198 | parameters that have defaults get them |
| Direct3DShader.GsShader.SetValue | libobs-d3d11/d3d11-shader.cpp:422-436 | a value that is another one is marked; no update is lost |
| Direct3DShader.GsShader.UploadParams | libobs-d3d11/d3d11-shader.cpp:343-367 | succeeds exactly if all values are set and fill the buffer, and then the GPU has them; if it fails the GPU is left alone, and no update is lost even though flags were cleared |
| Direct3DShader.GsShader.GatherParams | libobs-d3d11/d3d11-shader.cpp:343-349 | the assembling loop, which clears flags up to the first parameter that was never set |
| Direct3DShader.GsShader.UpdateParam | libobs-d3d11/d3d11-shader.cpp:306-341 | one parameter's bytes and flag |
| Direct3DShader.GsShader.Rebuild | libobs-d3d11/d3d11-rebuild.cpp:202-227 | on a new device the parameters fall back to their defaults and no update is lost |
| Direct3DShader.ClearedAssembles | libobs-d3d11/d3d11-shader.cpp:306-341 | clearing flags changes nothing about what is assembled |
| InputLayout.OneElementPerLeaf | libobs-d3d11/d3d11-shaderprocessor.cpp:52-136 | the layout has one element for each leaf, in any nesting; building it throws exactly if a semantic is unknown |
| InputLayout.ThrowsExactly | libobs-d3d11/d3d11-shaderprocessor.cpp:23-50 | building it throws if and only if a mapping, up to its first digit, is none of the six names |
| InputLayout.TexcoordsRunOut | libobs-d3d11/d3d11-shaderprocessor.cpp:127-135 | the unbounded loop over texture coordinates ends |
| InputLayout.AssignedSlot | libobs-d3d11/d3d11-shaderprocessor.cpp:91-136 | in a regular layout every semantic gets the slot that those before it leave |
| InputLayout.SlotsMatchBuffers | libobs-d3d11/d3d11-shaderprocessor.cpp:91-136 | slots are the positions of the buffers if and only if the layout has a POSITION; without one, all are off by one |
| InputLayout.LayoutOfShader | libobs-d3d11/d3d11-shaderprocessor.cpp:105-145 | the same for the layout of a shader's parameters |
| InputLayout.ExpectedBuffers | libobs-d3d11/d3d11-subsystem.hpp:740-751 | as many buffers are expected as the layout has elements, and one more if it has no POSITION |
| VertexInput.ShaderProcessor.SetSlotOf | libobs-d3d11/d3d11-shaderprocessor.cpp:91-103 | numbers the first element of a semantic, if there is one |
| VertexInput.ShaderProcessor.BuildInputLayoutFromVars | libobs-d3d11/d3d11-shaderprocessor.cpp:105-136 | builds the layout in place, or fails where the specification throws |
| VertexInput.ShaderProcessor.AssignTexcoords | libobs-d3d11/d3d11-shaderprocessor.cpp:127-135 | the loop over texture coordinates terminates with the specified slots |
| VertexInput.GsVertexShader.constructor | libobs-d3d11/d3d11-shader.cpp:31-44 | the shader remembers which buffers its layout wants, and how many |
| VertexInput.GsVertexBuffer.PushBuffer | libobs-d3d11/d3d11-vertexbuffer.cpp:22-33 | appends a buffer that exists |
| VertexInput.GsVertexBuffer.MakeBufferList | libobs-d3d11/d3d11-vertexbuffer.cpp:47-72 | fills the array with exactly the buffers that are wanted, in order |
| VertexInput.GsVertexBuffer.Init | libobs-d3d11/d3d11-vertexbuffer.cpp:94-135 | a vertex buffer is made if and only if there are vertices and points, and all coordinates are there and two or four words wide; then its native buffers hold the data of all vertices |
| VertexInput.GsVertexBuffer.InitBuffer | libobs-d3d11/d3d11-vertexbuffer.cpp:74-92 | a native buffer has the size of an element, times their number |
| VertexReads.ListAt | libobs-d3d11/d3d11-vertexbuffer.cpp:47-72 | where in the list each buffer is, and with which stride |
| VertexReads.ElementsReadTheirBuffers | libobs-d3d11/d3d11-vertexbuffer.cpp:47-72 | at every vertex, every element of a regular layout with a POSITION fetches the data of that vertex that is meant for it; as many buffers are bound as are expected, and each is as long as its stride, times the number of vertices |
| VertexReads.MappingIsFound | libobs-d3d11/d3d11-shaderprocessor.cpp:36-50 | a mapping, spelled out with the digits of its number, is found to be the semantic and the number that it names |
| VertexReads.InputsReadTheirData | libobs-d3d11/d3d11-shaderprocessor.cpp:105-136 | an input called POSITION, NORMAL, COLOR, TANGENT or TEXCOORD with a number fetches the point, the normal, the colour, the tangent or the coordinates of that number, at every vertex |
| ShaderCache.TimesIsInjective | libobs-d3d11/d3d11-shader.cpp:208-208 | multiplication by the prime modulo 2^64 can be undone |
| ShaderCache.XorCancels | libobs-d3d11/d3d11-shader.cpp:207-207 | so can the exclusive or |
| ShaderCache.XorIsBitwise | libobs-d3d11/d3d11-shader.cpp:207-207 | the exclusive or sets a bit exactly where those of the operands differ |
| ShaderCache.WideningKeepsSign | libobs-d3d11/d3d11-shader.cpp:207-207 | a byte is widened as a signed number |
| ShaderCache.OneByteChangesHash | libobs-d3d11/d3d11-shader.cpp:201-211 | two blobs of equal length that differ in exactly one byte have different hashes |
| ShaderCache.FirstHighByte | libobs-d3d11/d3d11-shader.cpp:201-211 | if all bytes before the last are below 0x80, the hash is the standard one if and only if the last is, too: bytes are extended with their sign |
| ShaderCache.HashIsStandard | libobs-d3d11/d3d11-shader.cpp:201-211 | on a text and all its beginnings the hash is the standard one if and only if all bytes are below 0x80 |
| ShaderCache.HashOf | libobs-d3d11/d3d11-shader.cpp:201-211 | the loop computes that hash |
| ShaderCache.FileReadsBack | libobs-d3d11/d3d11-shader.cpp:239-291 | a written file reads back as its blob, unless that is empty |
| ShaderCache.WrongByteIsRejected | libobs-d3d11/d3d11-shader.cpp:239-266 | a file with one wrong byte, in the blob or in the checksum, is rejected |
| ShaderCache.CacheIsRight | libobs-d3d11/d3d11-shader.cpp:239-266 | whatever one byte is overwritten with, the cache gives the right blob or none |
| ShaderCache.CacheFile.Compile | libobs-d3d11/d3d11-shader.cpp:239-291 | a sound file is used; otherwise the source is compiled and the file written anew or removed |
| TextureRebuild.RebuildDevice | libobs-d3d11/d3d11-rebuild.cpp:395-526 | every 2D texture is released once and rebuilt once, in any order of the list; all belong to the new device, pairs share a native texture and others do not |
| TextureRebuild.ReleaseAll | libobs-d3d11/d3d11-rebuild.cpp:395-441 | the first walk releases every texture once |
| TextureRebuild.RebuildAll | libobs-d3d11/d3d11-rebuild.cpp:472-526 | the second walk rebuilds every texture once |
| TextureRebuild.RebuildNext | libobs-d3d11/d3d11-rebuild.cpp:481-488 | one round of it: a texture with a partner rebuilds the pair, and a chroma texture is left to its partner |
| TextureRebuild.Texture2D.RebuildPairedY | libobs-d3d11/d3d11-rebuild.cpp:117-151 | the luma texture gets a native texture and shares it with its partner |
| TextureRebuild.Pair | libobs-d3d11/d3d11-subsystem.cpp:3180-3181 | two textures become partners that share a native texture |
| ProgramList.Device.CreateProgram | libobs-opengl/gl-shader.c:601-665 | a program that links is at the head of the list; one that does not is destroyed without changing the list |
| ProgramList.Device.DestroyProgram | libobs-opengl/gl-shader.c:667-690 | takes a program out, the rest keep their order; a program that was never linked changes nothing |
| ProgramList.Device.Unlink | libobs-opengl/gl-shader.c:681-684 | unlinking keeps every `prev_next` pointing at the slot that holds its program |
| ProgramList.Device.RemoveProgramReferences | libobs-opengl/gl-shader.c:281-300 | destroys, while walking the list, exactly the programs that use the shader |
| ProgramList.Device.DestroyIfUsing | libobs-opengl/gl-shader.c:285-299 | one round of that walk |
| ProgramList.WithoutMembers | libobs-opengl/gl-shader.c:281-300 | what is left are exactly the programs that do not use the shader |
| ProgramList.Device.GetShaderProgram | libobs-opengl/gl-subsystem.c:1076-1099 | finds the program of two shaders or makes one, so that no two programs of the list have the same shaders |
| ProgramList.Device.Destroy | libobs-opengl/gl-subsystem.c:330-331 | destroys all programs |
| Themes.OBSApp.BuildDependencyTree | frontend/OBSApp_Themes.cpp:439-496 | on any graph of themes, exactly the sound ones survive, each with its chain of ancestors, root first |
| Themes.OBSApp.ResolveTheme | frontend/OBSApp_Themes.cpp:442-491 | the walk ends on cycles and dangling names; it succeeds exactly for a sound theme, and finds its chain and first base theme |
| Themes.OnePath | frontend/OBSApp_Themes.cpp:453-482 | a theme has at most one chain of ancestors |
| Themes.DependenciesSurvive | frontend/OBSApp_Themes.cpp:439-496 | all dependencies of a surviving theme survive if and only if no base theme in its chain has a variant above it |
| Themes.DependencyIsLost | frontend/OBSApp_Themes.cpp:439-496 | a variant over a base theme over a variant survives, and that base theme does not |
| LogFilter.MessagesAreConserved | frontend/obs-main.cpp:158-190 | over any sequence, all messages are printed, reported as repeated, or still to be reported |
| LogFilter.RunPrintsAtMost31 | frontend/obs-main.cpp:173-183 | a run prints its first 31 messages, and the rest are what is reported when it ends |
| LogFilter.ThreeChangesRepeat | frontend/obs-main.cpp:149-175 | a text that differs in at most three characters counts as repeated, unless all three change from one end of their range to the other |
| LogFilter.Log.TooManyRepeatedEntries | frontend/obs-main.cpp:158-190 | decides on one message and updates the remembered run; without the filter nothing is remembered |
| LogFilter.Log.DoLog | frontend/obs-main.cpp:230-231 | prints a message unless it is one too many |
| LogFilter.Log.LogAll | frontend/obs-main.cpp:158-231 | the same conservation, for the lines of the file and the notes in it |

## Left out

- MetalMeaning.RunSame: the effect language is the one that Metal realises; that HLSL's is one of those is the
  hypothesis of `MetalRefinement.EmittedYields`. Statements are declarations, assignments to variables and their members
  with `=` or a compound operator, `if`, `while` and `return`: no `for`, and no assignment to an indexed element.
  Expressions have negation, the arithmetic, relational and logical operators of two operands, with blanks around them,
  indices and the conditional operator, but no `!`, `++` and `--` and no operators on bits. Locals and functions are not
  called like something Metal defines.
- MetalLanguages.MetalRealises: names that neither language respells mean the same in both, textures are loaded by two
  coordinates, and gradients have two components, as in the emitted text.
- MetalEmission.EmittedIsLifted: inside expressions and statements the source has single blanks where the usual style has
  them, and none elsewhere; between statements it has any.
- MetalReading.EmittedReadsBack: text is taken as the sequence of its lexemes; that names and operators stay apart when
  they are printed is not modelled.
- MetalScoping.EmittedBodyInScope: is about complete tokens, since for others the translation runs on behind the body, and
  not about comparisons, which `MetalComparisons.ScopedExactly` treats.
- MetalComparisons.ScopedExactly: is about complete tokens; the uniforms, textures and samplers of a body are mentioned as
  names.
- MetalAcceptance.BodyIsTranslated: that lists for `int3` and `Load` have no commas too many is sufficient. It counts all
  commas between the parentheses, of which an inner call may use up some.
- MetalShader.OBSShader.TranspileFunctionContent: text is kept as pieces (punctuation, copied names, references), so that
  splitting arguments at commas is splitting pieces.
- MetalAnalysis.AnalysisIsClosure: functions call only functions defined before them.
- The declarations that the Metal transpiler emits for structs and variables, vertex descriptors and sampler
  descriptors, `inout` parameters, and the rewriting of `return` in fragment shaders that return `float3`.
- UniformLayout.LayoutsAgreeExactly: arrays, types that libobs does not know and textures of vertex shaders are not in the
  struct.
- MetalUniforms.MetalShader.UploadShaderParameters: textures and samplers are not bound, and the switch between inline
  bytes and a buffer object is not modelled; writes out of bounds, which end the program, are excluded.
- GlslExactness.BodyIsExact: the text is kept as the tokens it consists of; that they stay apart when they are read again
  is not modelled.
- GlslParsing.ParseCore: `sincos` is a statement and so not in the expressions (that its variables are fresh is shown);
  conditional, index and assignment operators, and operators of more than one character, are not parsed.
- GlslValues.TranslationKeepsValue: the laws that relate the two languages are a hypothesis (`Agree`), which
  `GlslLanguages.LanguagesAgree` meets. Functions in which they differ, such as `fmod`, names that are respelled but not
  called, and componentwise operations on matrices are excluded (`Portable`).
- GlslLanguages.LanguagesAgree: names that are not respelled mean the same in both languages, a texel is read without a
  sampler, and an argument of `Sample` behind the coordinates, which is an offset in HLSL, is a bias.
- GlslOperands.LastOperandIsExact: operands that begin with a brace are excluded.
- GlslTails.SincosTailEscapes: a `sincos` inside parentheses of its own is not treated beyond one level, since it is a
  statement.
- GlslEscapes.MadIsRight: is about how the output is read, up to parentheses. Where `+` is associative, a sum in the
  tail of a `mad` does not change the value.
- The headers, declarations and helper functions that the GLSL writer emits around the bodies.
- GlslInterface.ReadPerLeaf: only the first parameter of `main` is assigned by the wrapper, and so in the model; members
  of structs have a semantic; what a plain result is assigned to is not modelled.
- GlslStages.FinalTextIsExact: the names of parameters, structs and members consist of letters, digits and underscores, and
  the text around the interface is given as a whole: what comes before it, between it and the wrapper's assignments, and
  the arguments of the call.
- GlslRenaming.RenamableExactly: is about the single steps; for the final text the condition is only sufficient, and
  `GlslApart.FinalExactly` has the exact one.
- Direct3DRun.Run: resizes and maps succeed; enumerations are numbers, so their conversion tables, which are injective,
  are left out, and so is padding in compared memory. Topologies, samplers, clears and the binding of vertex buffers and
  textures are left out; a rebuild does not reset what was last bound for vertex input.
- Direct3DShader.GsShader.UploadParams: mapping the buffer succeeds, and textures are not bound.
- ConstantBuffer.PackIsLegal: the hardware's own rule for arrays of scalars is not treated, and packing does not treat
  it either.
- InputLayout.LayoutOfShader: formats are left out, indices are read without overflow, slots do not wrap around.
- VertexReads.InputsReadTheirData: an element is fetched as a whole, whatever part of it the format takes.
- ShaderCache.CacheFile.Compile: reading and writing either work or fail as a whole, and different sources have
  different file names.
- TextureRebuild.RebuildDevice: creating textures succeeds apart from opening shared ones, and views and the other kinds of
  objects are left out.
- MetalQueue.CopiesSeeRendering: as in the original, only draws and clears count as writes, not copies and mipmaps;
  `MetalQueue.InsertedExactly` counts copies, too. Fences, the display link and its thread are left out.
- ProgramList.Device.DestroyProgram: memory is not freed, and the calls to OpenGL are left out.
- Themes.OBSApp.BuildDependencyTree: parsing theme files, style sheets and applying a theme are left out.
- LogFilter.Log.DoLog: time stamps, splitting text into lines, the lock and the other outputs are left out; counts do not
  overflow.
- The EGL and DRM code, texture format tables, monitor enumeration, the frontend's interface and configuration: they
  forward calls or look things up.
