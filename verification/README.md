# A verified model of a Lua runtime's bundled libraries

This project models, in Dafny, the hard parts of five libraries that the repository bundles
with its Lua runtime, and proves what they are for:

- **LPeg** (`lpeg.c`): a compiler from patterns to the code of a backtracking machine, with
  peephole passes over that code. The main theorem is that compiled code means the same as the
  pattern read as a Parsing Expression Grammar: same result, same end, same captures.
- **sproto** (`sproto/`): a schema-driven wire format and a zero-packing compressor. Decoding
  undoes encoding, also with another version of the schema; unpacking undoes packing.
- **LTN12 and MIME** (`luasocket/`): `filter.chain` equals the composition of its filters, and
  chains of the quoted-printable and Base64 codecs with their line wrappers give back their
  input however it is cut.
- **The buffered reader** (`luasocket/buffer.c`): reads see only the byte stream.
- **JSON** (`cjson/`): the parser undoes the printer, and its unchecked appends stay in bounds.

`dafny verify dfyconfig.toml` checks everything.

## How the parts fit together

*LPeg.* `LpegCode`, `LpegMachine` and `LpegPeg` are the instruction set, the machine (a step
function, and the loop of `match` proved against it) and the grammar semantics. `LpegBuild`
holds the pattern operators and passes on raw words, branch for branch as the source has them.
The proofs go through `LpegBlock`: a tree of the code shapes that operators lay out, with its
words (`Flat`) and its meaning (`EvalB`). `LpegRun` shows that running the words computes the
meaning. For each pass and operator one lemma says that the raw words it produces are the words
of some block, and another that this block means the right thing: `LpegOptCaps`, `LpegThread`,
`LpegUnion`, `LpegOperators`, `LpegRepeat`. `LpegVerify` treats the loop check. `LpegCorrect`
puts these together. `LpegLimits` shows where the source departs from the semantics, with the
exact condition. `LpegInPlace` does the passes on arrays in place. `LpegTypes` gives every word
of code a type that says what the stack holds there, `LpegTyping` types the words of blocks, and
`LpegDiscipline` draws the conclusion for patterns. `LpegLink` shows for any code in order that
linking keeps its runs, and `LpegGrammar` lays grammars out, models their verifier with its
left-recursion check, and proves that what it accepts meets everything that `LpegLink` asks for.
`LpegCheckrule` proves that the verifier ends. `LpegOpen` is the machine on code whose references
to rules do in one turn what a subject says; the proofs about blocks are about this machine, so
that `LpegMeaning` can put the rules in and show that the code of a grammar computes its meaning.
`LpegFix` has the loops that verify and fix a grammar, and `LpegRecursion` what they let through.
`LpegSizes` and `LpegAccepts` say, by recursion over patterns and blocks, which patterns compile and
which grammars are accepted, and `LpegTotal` that accepted grammars do not run for ever.

*sproto.* `SprotoPack` is packing on words; `SprotoPackBuffer` the two loops on buffers;
`SprotoWire` the format; `SprotoRoundTrip` its theorems; `SprotoBuffer` and `SprotoEncode` the
encoders that write in place, and the room they ask for. `SprotoPackForm`, `SprotoForm` and
`SprotoMessages` state the packed form and the messages in numbers, byte by byte, apart from the code.

*LTN12 and MIME.* `LtnFilters` states the filter protocol and the pipeline; `LtnChain` is the
machine. `MimeQp` and `MimeBase64` are the codecs on bytes, and `MimeFilters` their incremental
loops, the codecs as filters, and the chains. `MimeQpRules` and `MimeBase64Rules` state the two
encodings by the rules of RFC 2045.

*JSON.* `JsonText` is the printer and the parser on values, `JsonParser` and `JsonBuffer` the code in
the source's form; `JsonRules` and `JsonGrammar` state strings, UTF-8 and the texts that are decoded by
RFC 3629 and RFC 8259.

Callbacks, transports and schemas that a program supplies are parameters: the objects to
encode, the list of what a transport does on each call, the rules of a grammar.

## Where code and expectations part

- LPeg's concatenation and union are wrong on some operands (`LpegLimits`). The compiler theorem
  therefore asks for `Sane` patterns: no merge of two IAny with a test among them that the merge
  gets wrong, and no left operand of a union that slips. Both conditions are exact. A check that
  can be run (`Tame`) is enough for them.
- The loop check accepts loops that never end. A run ends exactly where the semantics has a result
  (`HaltsExactly`); it always does when every IBack in the body of a loop stands directly behind
  its own check (`Plain`), which a rotated test or a capture that was moved can undo.
- The left-recursion check takes and-predicates to succeed, and so accepts rules that call themselves
  for ever behind one (`MissedRecursion`). A grammar's run ends exactly where the grammar gives a
  result (`GrammarCorrect`); it always does when no alternative that the check passes over is ever
  tried (`AcceptedHalts`, with a condition that can be run).
- `checkrule` asserts that the choice in front of a loop leads right behind the loop; threading may
  have moved it (`MovedExit`). The model takes assertions to be compiled out there.
- `p * P(false)` is compiled to `P(false)` and so halts where p would loop for ever.
- The encoders of sproto ask for more room than the message takes: each array element and each
  absent string field needs a spare length word, and each integer of an array 8 bytes.
- `sproto_pack` reads up to 7 bytes behind a source whose partial last word is the 256th of its
  run (`Overreads`); `sproto_unpack` reads one byte behind a stream that ends one byte early.
- An optional `any(n)^-1` concatenated with another single `any` is not optional any more.
- The quoted-printable encoder quotes a blank one byte before the end of its input, where nothing asks
  for it (`BlankBeforeLast`); the decoder drops the byte behind a CR that is not followed by LF.
- The JSON parser takes raw control bytes in strings, and a byte 0 for the end of the text.

## Model

| member | source | states |
|---|---|---|
| `LpegMachine.LevelsInvariant` | lpeg.c:445-563 | For any code whatever: in every state of every run the capture levels saved in choice entries do not decrease up the stack, and none exceeds the number of captures, so that no entry restores captures that do not exist. |
| `LpegMachine.HaltUnique` | lpeg.c:445-563 | A run halts in one state only: two halting states reached from the same state are equal. |
| `LpegMachine.Backtrack` | lpeg.c:550-563 | The code at label `fail`: pops pending calls down to the latest choice, resumes exactly that choice with its word, position and capture level, and agrees with the step function turn by turn. |
| `LpegMachine.Turn` | lpeg.c:463-590 | One turn of the dispatch loop of `match` on its registers agrees with the step function. |
| `LpegMachine.Match` | lpeg.c:436-632 | The imperative loop of `match` ends with the position and captures of the machine's halting state, or without a match when the machine halts so. |
| `LpegRun.Exec` | lpeg.c:445-632 | Simulation: run from the start of a block's words with any stack below and any captures, the machine arrives at the end of the block with the position and captures of the block's meaning and that stack intact, or fails with that stack intact, or never halts, exactly as the meaning says. |
| `LpegRun.ExecSpins` | lpeg.c:529-535 | A loop whose body matches the empty string at a position repeats it there for ever, whatever captures pile up. |
| `LpegOptCaps.OptCapsFlat` | lpeg.c:868-896 | `optimizecaptures` on the words of a built block yields the words of the block with each group of captures moved behind the checks that follow it: no jump target moves and no instruction is cut. |
| `LpegOptCaps.MoveCapsSame` | lpeg.c:868-896 | Moving captures across checks and correcting their offsets changes neither the result nor one entry of the capture list, for every subject, position and initial list. |
| `LpegOptCaps.MoveAllGood` | lpeg.c:868-896 | The pass keeps every invariant of built blocks; in particular no corrected offset exceeds 15. |
| `LpegOptCaps.LiftFits` | lpeg.c:881-890 | A correction that `skipchecks` has allowed still fits after it is added to any capture of the group. |
| `LpegOptCaps.LiftApply` | lpeg.c:592-624 | Captures corrected by n bytes and run n bytes later leave the entries they left before. |
| `LpegThread.OptJumpsFlat` | lpeg.c:899-911 | `optimizejumps` on the words of a built block gives the words of the block whose exits all lead past the unconditional jumps found at their targets. |
| `LpegThread.ThreadEval` | lpeg.c:899-911 | Threading jumps changes the meaning of no block. |
| `LpegThread.ThreadValid` | lpeg.c:899-911 | After the pass every exit of a block either follows the jumps at its end or there are none. |
| `LpegVerify.NullableSound` | lpeg.c:641-651 | A block that is not nullable and whose steps back all stand directly behind their own checks consumes a byte whenever it succeeds, and never moves back, if references consume as `verify` takes them to. |
| `LpegVerify.VerifySound` | lpeg.c:652-778 | On the code of every built block `verify` raises its error exactly when more than 200 entries would be saved at once, and else answers 0 exactly when the block is nullable and 1 when it is not; none of its assertions can fail. |
| `LpegVerify.CheckedOf` | lpeg.c:714-734 | A block whose code holds no IBack away from its own check, as the look-ahead of `verify` expects, is one for which the answer of `verify` is sound. |
| `LpegUnion.FirstPartIs` | lpeg.c:1455-1468 | `firstpart` finds the end of the first alternative exactly of blocks that are a whole test-and-jump or choice, and 0 for all others, whatever words it happens to land on. |
| `LpegUnion.JoinFlat` | lpeg.c:1502-1530 | The merged-set, test-and-jump and rotated-choice codes of `basicUnion` are the words of the joined block. |
| `LpegUnion.JoinEval` | lpeg.c:1502-1530 | Each of the three forms means ordered choice: the second operand is tried exactly when the first has failed, from the same position with the same captures. |
| `LpegUnion.SplitFlat` | lpeg.c:1533-1564 | `separateparts` on the words of an optimised union gives the words of the union with the new alternative behind its last one, tests kept or reverted. |
| `LpegUnion.SplitEval` | lpeg.c:1533-1564 | The exact meaning of a split union for every two operands, right or wrong: the old union where one of its alternatives matches, and else the new alternative, at the position where it is tried. |
| `LpegUnion.TriedFails` | lpeg.c:1533-1564 | A new last alternative is tried exactly where all alternatives of the old union fail. |
| `LpegUnion.SplitGood` | lpeg.c:1533-1564 | The new union keeps every invariant of built blocks, so that it can be split again, whatever the new alternative is. |
| `LpegUnion.AvoidsFails` | lpeg.c:1088-1099 | A block whose alternatives all start with checks outside a set fails at every byte of the set. |
| `LpegUnion.RotateIs` | lpeg.c:914-924 | `optimizechoice` turns the check behind a choice into a test in front of it, with its step saved for backtracking, and leaves every other choice alone. |
| `LpegOperators.SeqMeans` | lpeg.c:1328-1346 | `p1 * p2`: given code that means the operands, a merge of two IAny that is allowed, and a second operand that is not the pattern that always fails, the result means their sequence, results that do not exist included. |
| `LpegOperators.DiffMeans` | lpeg.c:1349-1376 | `p1 - p2` means the difference in all its three forms: set difference, test and fail, rotated choice with fail-twice. |
| `LpegOperators.NegMeans` | lpeg.c:1379-1395 | `-p` means the not-predicate. |
| `LpegOperators.AndMeans` | lpeg.c:1398-1417 | `#p` means the and-predicate, also when it is compiled to a check and a step back. |
| `LpegOperators.AltMeans` | lpeg.c:1567-1582 | `p1 + p2` means ordered choice unless a new last alternative of p1 is tried at another position than the one where p1 starts. |
| `LpegOperators.NumMeans` | lpeg.c:1234-1272 | `lpeg.P(n)` matches exactly n bytes, and `lpeg.P(-n)` the empty string where fewer than n bytes are left, for counts above 255 too. |
| `LpegOperators.StrMeans` | lpeg.c:1249-1257 | `lpeg.P(s)` matches exactly the bytes of s. |
| `LpegOperators.SetMeans` | lpeg.c:1102-1140 | `lpeg.S` and `lpeg.R` match one byte of the set. |
| `LpegOperators.MarkMeans` | lpeg.c:1741-1761 | Position, back and argument captures leave one entry at the current position. |
| `LpegOperators.MoveMeans` | lpeg.c:1343-1343 | Code that means a pattern still means it after `optimizecaptures`. |
| `LpegRepeat.StarMeans` | lpeg.c:1585-1674 | `p^n`: the span, test-loop and choice-loop codes, after both passes, mean n matches followed by as many as possible, and never end exactly where the semantics repeats an empty match. |
| `LpegRepeat.AtMostMeans` | lpeg.c:1630-1679 | `p^-n` means at most n matches, greedily, in both of its forms. |
| `LpegRepeat.CaptMeans` | lpeg.c:1688-1713 | A capture records the start and end of its match around the inner captures, in the folded form when that is short; a full capture at the end of plain checks gives the same entry. |
| `LpegRepeat.CapsClosed` | lpeg.c:592-605 | The captures of a match never end with one that is still open, so that a close instruction folds only the open capture that belongs to it. |
| `LpegRepeat.VerifiedBody` | lpeg.c:1613-1620 | When `star_l` returns a loop, its body is a set, can fail only in its first check, or is one that `verify` found not nullable. |
| `LpegSizes.LoopOutcome` | lpeg.c:1585-1627 | For every p that compiles and every n >= 0, `p^n` is too big from 32756 words on; else it is refused as a loop that may be empty exactly when p is neither a set nor able to fail in its first check only, and its block is nullable; it is refused for pending choices exactly when such a p saves more than 200; and in all other cases it is a loop of the stated size. |
| `LpegSizes.CompilesExactly` | lpeg.c:1040-1713 | Which patterns compile, by recursion over patterns: exactly those whose operands compile, whose sizes stay under the bound, and whose loops are not refused; and how many words each takes. |
| `LpegCorrect.Laid` | lpeg.c:1234-1713 | The code of every pattern that compiles, references to rules included, is the code of a block that keeps all invariants of built blocks. |
| `LpegCorrect.NeverBad` | lpeg.c:652-778 | No assertion of `verify` fails when `star_l` calls it, whatever the pattern. |
| `LpegCorrect.CompilerCorrect` | lpeg.c:436-1713 | Compiler correctness: for every sane pattern of all these operators, and every subject and start at which the grammar semantics gives a result, the machine halts with exactly that end and those captures, or with no match exactly when the semantics fails. |
| `LpegCorrect.OpenCorrect` | lpeg.c:436-1713 | The same for patterns with references to rules, whatever these references do. |
| `LpegCorrect.HaltsExactly` | lpeg.c:436-1713 | A run halts if and only if the semantics of what the builders keep of the pattern gives a result; they keep everything unless a sequence ends in a pattern that always fails. |
| `LpegCorrect.KeptEval` | lpeg.c:1331-1335 | Dropping an operand in front of a pattern that always fails changes no result. |
| `LpegCorrect.AlwaysHalts` | lpeg.c:714-734 | A sane pattern that compiles, and in whose loop bodies every IBack stands directly behind its own check, has a result at every position of every subject, and its run halts there with it. |
| `LpegCorrect.MatchPattern` | lpeg.c:2325-2380 | Compiling a pattern and running `match` returns the end and captures of the grammar semantics, wherever it gives a result. |
| `LpegLimits.MergeExact` | lpeg.c:1336-1337 | The merge of two single IAny instructions, which ignores that one may be an optional `any(n)^-1`, gives the right result for every subject if and only if the second is no test and the first, when it is one, asks for no more bytes than the second. |
| `LpegLimits.AltExact` | lpeg.c:1533-1582 | A union is right for every second operand that makes it split its left one if and only if no new last alternative of the left operand is ever tried at another position than the one where it starts. |
| `LpegLimits.LevelEnough` | lpeg.c:1551-1564 | That is so when no alternative of the left operand's code has a body that may fail behind a test of two or more bytes: a check on the words. |
| `LpegLimits.TameSane` | lpeg.c:1336-1564 | A recursive check that can be run, of the merges and of the left operands of unions, is enough for a pattern to be sane. |
| `LpegLimits.RevertWrong` | lpeg.c:1558-1558 | A reverted choice steps back one byte where its test had consumed two: (P(2) * 'x' + S'') + 'c' on "acb" must fail, and the machine matches up to position 2. |
| `LpegLimits.RunsForever` | lpeg.c:726-734 | The loop check accepts (#P'a' + 'ab')^0, because it never follows a test that was rotated in front of a step back, and the run on "a" never halts. |
| `LpegLimits.PartedForever` | lpeg.c:726-734 | It also accepts (Cp() * #P'a')^0, in which a capture was moved between a check and its step back, and the run on "a" never halts. |
| `LpegLimits.DroppedLoop` | lpeg.c:1334-1335 | In front of P(false) the first of these loops is dropped, and the run halts although the semantics gives no result. |
| `LpegInPlace.Invert` | lpeg.c:830-840 | Reverses a slice of the array in place and nothing else. |
| `LpegInPlace.Rotate` | lpeg.c:843-851 | Three reversals move the first n words of a slice behind the others. |
| `LpegInPlace.SkipChecksAt` | lpeg.c:857-866 | The loop counts the words and bytes of the checks that a correction can cross. |
| `LpegInPlace.MoveGroup` | lpeg.c:875-894 | Finding a group, correcting its offsets and rotating it in place equals one step of the specified pass. |
| `LpegInPlace.OptimizeCaptures` | lpeg.c:871-896 | The in-place pass leaves the array that `OptCaps` specifies. |
| `LpegInPlace.OptimizeChoice` | lpeg.c:914-924 | The in-place rotation of a choice leaves the array that `OptChoice` specifies. |
| `LpegInPlace.Verify` | lpeg.c:652-778 | The loop of `verify` with its stack of pending choices gives the specified verdict, and always ends. |
| `LpegTypes.StepFits` | lpeg.c:445-563 | Every turn of the machine on typed code keeps the types: what the stack holds above the running rule, position and capture count included. |
| `LpegTypes.TypedDiscipline` | lpeg.c:445-563 | On typed code, from any position of any subject, every reachable state is in order: no assertion has failed, returns find calls, commits and fail-twice find choices, the end finds only the giveup entry, and saved capture levels are ordered. |
| `LpegTyping.TypedBlock` | lpeg.c:1234-1713 | Every word of a built block is typed; unconditional jumps lead forward, or back to the test of their loop. |
| `LpegDiscipline.StackDiscipline` | lpeg.c:445-563 | Stack discipline of every pattern that compiles, sane or not, on runs that halt and runs that do not. |
| `LpegDiscipline.BuiltSettled` | lpeg.c:899-911 | In the code of every built block all chains of unconditional jumps come to an end. |
| `LpegDiscipline.FinishLoop` | lpeg.c:1669-1670 | The two passes at the end of `star_l`, in place, leave the compiled loop; that they end is not assumed. |
| `LpegCheckrule.Recurs` | lpeg.c:680-693 | A call of `verify` that comes back to its first word with entries saved does the same again on top of them, and so ends in an error. |
| `LpegCheckrule.VerifyEnds` | lpeg.c:652-798 | Whatever the rules, every call of `verify` that `checkrule` makes for them, for a rule or for a loop in it, comes to an end, and no assertion of `verify` fails: it answers, or raises one of its three errors. |
| `LpegFix.Verify` | lpeg.c:652-778 | The loop of `verify` with a table of rules, on the calls that `checkrule` makes: its assertions hold, it ends, and it gives an answer exactly when `verify` has that answer. |
| `LpegFix.CheckRule` | lpeg.c:781-798 | `checkrule` passes a rule exactly when every loop that holds an open call is found to consume and the rule itself verifies without an error. |
| `LpegGrammar.VerifyChain` | lpeg.c:680-693 | From every word from which `verify` comes to an end, the chain of unconditional jumps and open calls comes to an end. |
| `LpegGrammar.AcceptedSettled` | lpeg.c:899-911 | In a grammar that `fix_l` accepts `target` always returns: behind every call when calls are corrected, and at every jump when jumps are threaded. |
| `LpegGrammar.AcceptedLinkable` | lpeg.c:1167-1231 | In an accepted grammar no test is led back to itself by jumps and tail calls, and no jump leaves the code. |
| `LpegGrammar.GrammarTyped` | lpeg.c:1196-1206 | The layout of any rules that compile, with its initial call, its jump and an IRet behind every rule, is typed. |
| `LpegGrammar.GrammarDiscipline` | lpeg.c:445-563 | Stack discipline of accepted grammars, with plain calls and after linking: every state of every run is in order. |
| `LpegGrammar.AcceptedLinked` | lpeg.c:1167-1231 | Linking an accepted grammar, tail calls turned into jumps and all jumps threaded, changes the result of no run. |
| `LpegFix.FixGrammar` | lpeg.c:1167-1231 | `fix_l`, in place: lays the rules out, checks them, corrects the calls and threads the jumps. It returns a grammar exactly when the rules are accepted, and then its array holds the linked code. |
| `LpegGrammar.FindKey` | lpeg.c:231-240 | Among rules with different keys a key leads to its own rule, and to none exactly when no rule has it. |
| `LpegAccepts.SeenExactly` | lpeg.c:652-778 | With a table of rules `verify` answers 1 or 0 exactly as a recursion over the block of the rule or loop sees it consume or be passed, through references, with the words that pending calls return to and the room for 200 entries; it raises an error exactly when that recursion meets one. |
| `LpegAccepts.AcceptsExactly` | lpeg.c:781-1231 | Which grammars `fix_l` accepts: exactly those whose rules compile and stay under 32756 words, whose rules are all seen without an error, whose loops with a reference are all seen to consume, and whose references all name rules. |
| `LpegAccepts.SelfRefused` | lpeg.c:680-693 | A rule that starts with a reference to itself is refused. |
| `LpegMeaning.EvalGrows` | lpeg.c:680-693 | Where references have a meaning, giving a meaning to more of them changes no result of a pattern. |
| `LpegMeaning.CalledRule` | lpeg.c:231-240 | A reference to the key of a rule means the pattern of that rule. |
| `LpegMeaning.CalledNone` | lpeg.c:691-692 | A grammar with a reference to a key that no rule has is not accepted. |
| `LpegMeaning.CallDone` | lpeg.c:463-563 | A called rule does on the stack what a reference to it means: it returns to the word behind the call with its end and captures, or fails below the call. |
| `LpegMeaning.GrammarCorrect` | lpeg.c:436-1231 | The code of a grammar computes its meaning: the machine, started at any position, halts if and only if the grammar, its references running their rules, gives a result there, and then with that end and those captures. |
| `LpegMeaning.GrammarHalts` | lpeg.c:1331-1335 | The same when the builders drop loops of the rules: the run halts exactly where what they keep gives a result, and where the rules as written give one, with that. |
| `LpegMeaning.FixedCorrect` | lpeg.c:1167-1231 | The same of the linked code that `fix_l` returns for an accepted grammar. |
| `LpegMeaning.GivesOnce` | lpeg.c:436-632 | A grammar gives one result at most. |
| `LpegFix.MatchGrammar` | lpeg.c:2325-2380 | Fixing a grammar and running `match` returns the end and captures that the grammar gives, or an error exactly when the grammar is not accepted. |
| `LpegTotal.TotalBlock` | lpeg.c:652-798 | Every part of a rule that `verify` has seen has a result wherever it is tried, and consumes where `verify` has seen so, by induction on the bytes that are left and on the entries of `verify`. |
| `LpegTotal.AcceptedHalts` | lpeg.c:781-1231 | What the checks of `fix_l` promise: every run of an accepted grammar halts, at every position of every subject, with the one result that the grammar gives, and calls nest at most 201 deep per byte; given that the rules are sane and lose no loop, that every IBack stands behind its own check, and that no alternative which `verify` passes over, and which refers to a rule, is ever tried. The last condition can be run. |
| `LpegTotal.RightHalts` | lpeg.c:781-1231 | A <- 'a' A is accepted, and all its runs halt. |
| `LpegRecursion.MissedRecursion` | lpeg.c:744-748 | The left-recursion check accepts A <- #'ab' / A, because it takes the predicate to succeed, and the run on the empty string never ends. |
| `LpegRecursion.ExitMoves` | lpeg.c:899-911 | Threading moves an exit exactly when an unconditional jump stands where it leads, if the jumps from there come to an end. |
| `LpegRecursion.MovedExit` | lpeg.c:788-788 | In ('a' * V(1)^0 + 'b')^0 the exit of the inner loop has been moved, so that the assertion of `checkrule` about loops does not hold. |
| `SprotoPack.UnpackPack` | sproto/sproto.c:1148-1308 | Unpacking undoes packing for every sequence of whole words, across literal runs, promoted words and full runs. |
| `SprotoPack.PackedSize` | sproto/sproto.c:1148-1254 | W words pack into at most 8W + 2*ceil(W/256) bytes: a short run is paid for by the word that ends it. |
| `SprotoPack.PackedSizeReached` | sproto/sproto.c:1148-1254 | The bound is reached when no byte is zero. |
| `SprotoPackForm.WordForm` | sproto/sproto.c:1148-1184 | A word outside runs: bit i of the first byte is set exactly when byte i is not zero, and these bytes follow in their order. |
| `SprotoPackForm.WordFirst` | sproto/sproto.c:1199-1254 | What follows a word outside runs is packed on its own. |
| `SprotoPackForm.RunForm` | sproto/sproto.c:1186-1254 | A word without zeros starts a run: 255, the number of words less one, and the words; it goes on over all words with 6 or more bytes that are not zero, up to 256. |
| `SprotoPackForm.UnpackWord` | sproto/sproto.c:1256-1308 | Any mask and its bytes, whoever wrote them, stand for the word with these bytes where the bits are set and zeros elsewhere. |
| `SprotoPackForm.UnpackRunForm` | sproto/sproto.c:1256-1308 | A marker with any number is followed by that many words and one more, as they are. |
| `SprotoPackForm.UnpackShort` | sproto/sproto.c:1256-1308 | A stream that ends inside a word or a run is refused. |
| `SprotoPackBuffer.PackSeg` | sproto/sproto.c:1148-1184 | One word: its size, and its bytes when they fit; nothing outside the room is written. |
| `SprotoPackBuffer.WriteFF` | sproto/sproto.c:1186-1197 | A run is written with its marker and length and filled up with zeros. |
| `SprotoPackBuffer.PackInto` | sproto/sproto.c:1199-1254 | The returned size does not depend on the room in the buffer; with room enough the buffer holds the packed form, and nothing behind the room is written. |
| `SprotoPackBuffer.UnpackPacked` | sproto/sproto.c:1199-1308 | Unpacking what was packed gives the source filled up with zeros to whole words, if and only if no partial last word is the 256th of its run or the bytes behind the source are zero. |
| `SprotoPackBuffer.PackedFits` | sproto/lsproto.c:458-470 | For whole words the packed form fits what `lpack` reserves, and fills it exactly when no byte is zero. |
| `SprotoPackBuffer.UnpackInto` | sproto/sproto.c:1256-1308 | A well-formed stream gives its size whatever the room, and its bytes when they fit. A stream that lacks exactly the last byte of a word outside runs is read with the byte behind it; every other stream gives -1. |
| `SprotoRoundTrip.RoundTrip` | sproto/sproto.c:845-1144 | Decoding an encoded object gives back that object and reads all its bytes, with nested objects and arrays. |
| `SprotoForm.MessageIs` | sproto/sproto.c:845-947 | The bytes of every message, nested to any depth, in numbers: the count and each record in two bytes, a record 2(g - 1) + 1 over each gap of g tags, 2v + 2 for an integer from 0 to 32766 and 2 or 4 for a boolean, with no data for these; and for everything else the record 0, with its length in four bytes and its bytes in the data part: integers in two's complement of 4 or 8 bytes, arrays of booleans as bytes 0 or 1. |
| `SprotoForm.IntegerForm` | sproto/sproto.c:885-901 | An integer adds no data exactly when it is 0 to 32766, and its record is then 2v + 2; any other adds 4 + 4 or 4 + 8 bytes with its two's complement. |
| `SprotoForm.Thousand` | sproto/sproto.c:892-894 | 1000 under tag 0 is the message 01 00 d2 07. |
| `SprotoMessages.DecodeExactly` | sproto/sproto.c:949-1144 | Which bytes are messages, whoever wrote them: the decoder returns an object and a length exactly when the bytes of that length are a message of the type that says the object, with integers in 4 or 8 bytes whatever their value, any even record but 2 for true, unknown tags passed over, and nested objects that fill their bytes; it fails on all others. |
| `SprotoMessages.CutOff` | sproto/sproto.c:949-1144 | No message is the front of another, so that one that was cut off anywhere is refused. |
| `SprotoRoundTrip.ObjectBack` | sproto/sproto.c:845-1144 | Schema evolution: a decoder with another compatible schema reports exactly the fields it knows, at every level, and still returns the encoded length. |
| `SprotoRoundTrip.ValueBack` | sproto/sproto.c:868-916 | Each single value, inline or in the data part, is read back as what the other schema knows of it. |
| `SprotoRoundTrip.IntArrayBack` | sproto/sproto.c:995-1021 | An array of integers is read back from its 4 or 8 byte form with the signs of its elements. |
| `SprotoRoundTrip.SkipBack` | sproto/sproto.c:918-930 | A record that skips tags brings the decoder to the tag before the next field. |
| `SprotoRoundTrip.HeaderFits` | sproto/sproto.c:297-315 | Whatever subset of the fields is present, the records written are at most the number reserved at import, so that they never reach the data. |
| `SprotoBuffer.Widened` | sproto/sproto.c:688-701 | The 8-byte form of a narrow integer is its 4-byte form followed by its sign, which is the top bit of the fourth byte. |
| `SprotoBuffer.WidenOne` | sproto/sproto.c:747-755 | One step of the rearrangement, from the top down, overwrites no integer that is still to be read. |
| `SprotoBuffer.EncodeIntegers` | sproto/sproto.c:703-781 | The array is written with width 8 exactly when some integer needs it, and fails exactly when there is less room than w*(k-1) + 9 bytes for k integers of width w. |
| `SprotoEncode.BodiesInto` | sproto/sproto.c:812-836 | The loop over strings or nested objects writes them one behind the other, and fails exactly when there is less room than the elements, or the callback that ends the array, ask for. |
| `SprotoEncode.ArrayInto` | sproto/sproto.c:783-843 | An array of any kind is written in place with its length, an empty one is left out, and -1 is returned exactly when the room does not suffice. |
| `SprotoEncode.FieldInto` | sproto/sproto.c:865-916 | One field contributes its value in the record, its bytes in the data part, or nothing, with the room asked for even when it is absent. |
| `SprotoEncode.Finish` | sproto/sproto.c:937-946 | The count is written and the data moved against the records: header, records and data become one message. |
| `SprotoEncode.ObjectInto` | sproto/sproto.c:845-947 | Objects nested to any depth are encoded in place: the buffer holds exactly the specified message and nothing else changes, or -1 is returned, exactly when the buffer is smaller than the encoders ask for. |
| `SprotoEncode.RoomBeyondMessage` | sproto/sproto.c:812-825 | An object with one array of one string has a message of 13 bytes and is encoded only in a buffer of 17. |
| `SprotoEncode.Lencode` | sproto/lsproto.c:251-285 | The buffer doubles until the message fits; the result is the message, or the error exactly when doubling exceeds the largest size first. |
| `SprotoBuffer.FindTag` | sproto/sproto.c:583-608 | Both lookups, by position for dense tags and by halving otherwise, find the field with the tag, or none if there is none. |
| `LtnFilters.PipelineComposes` | luasocket/luasocket_scripts.c:50-80 | A pipeline of filters that compute functions, however their input is cut, computes the composition of the functions. |
| `LtnChain.Deeper` | luasocket/luasocket_scripts.c:62-74 | Passing a piece on to the next filter leaves what the chain still puts out the same, with one call less to make. |
| `LtnChain.Back` | luasocket/luasocket_scripts.c:69-71 | Asking the filter before for more, or for its end, leaves what the chain still puts out the same. |
| `LtnChain.NextTop` | luasocket/luasocket_scripts.c:63-66 | Passing nil on when the top filter has ended leaves what the chain still puts out the same. |
| `LtnChain.IdleFlow` | luasocket/luasocket_scripts.c:50-80 | A chain that waits for input owes what the pipeline of its filters makes of the input to come. |
| `LtnChain.Chain.Turn` | luasocket/luasocket_scripts.c:58-78 | One turn of the machine with top, index and retry. |
| `LtnChain.Chain.Call` | luasocket/luasocket_scripts.c:56-79 | Every call of the chain returns, with the next piece of what the chain owes, or "" when it waits, or nil when it has ended. |
| `LtnChain.Drive` | luasocket/luasocket_scripts.c:267-281 | Driven with any pieces and then nil, the chain puts out exactly the pieces of running each filter over the whole output of the one before it. |
| `MimeQp.EncodeIs` | luasocket/mime.c:386-440 | The incremental encoder writes, byte for byte, the tokens of its whole input. |
| `MimeQpRules.EncodeShows` | luasocket/mime.c:352-440 | What is written, byte by byte: a printable byte is itself, CR LF is the marker, a blank is itself unless it stands before CR LF, at the end or one byte before it, everything else is `=` and two upper-case digits, and a soft break ends input whose last bytes had to wait. |
| `MimeQpRules.EncodeRules` | luasocket/mime.c:352-440 | Of what is written, with the marker CR LF: no blank stands before CR or at the end, and every byte outside line breaks is a blank or printable. |
| `MimeQpRules.BlankBeforeLast` | luasocket/mime.c:399-424 | A blank one byte before the end is quoted although nothing asks for it: " b" is written "=20b=". |
| `MimeQpRules.DecodeHex` | luasocket/mime.c:491-517 | `=` and two digits of either case are read as the byte that they name. |
| `MimeQpRules.DecodeOther` | luasocket/mime.c:499-505 | A soft break is read as nothing, and `=` with anything else behind it as it stands. |
| `MimeQpRules.DecodeCr` | luasocket/mime.c:507-510 | A line break is read as itself; a CR with another byte behind it goes, together with that byte. |
| `MimeQpRules.DecodePlain` | luasocket/mime.c:511-514 | Any other byte is read as itself when it is a tab or printable, and goes when it is not. |
| `MimeQp.EncodePieces` | luasocket/mime.c:448-484 | Encoding two pieces with the carry between them is encoding the whole. |
| `MimeQp.SettleTokens` | luasocket/mime.c:386-424 | What is put out for pending bytes is final: it is the front of what is written for all input that may follow; at most two bytes stay pending. |
| `MimeQp.TokensMean` | luasocket/mime.c:386-440 | The tokens stand for the input. |
| `MimeQp.WrapToken` | luasocket/mime.c:570-617 | No `=XX` is split: with lines of 4 bytes or more a soft break is put in front of a token exactly when the token leaves no room for the break behind it. |
| `MimeQpRules.WrapBreak` | luasocket/mime.c:570-617 | The same for the wrapper of quoted-printable text. |
| `MimeQp.QpRoundTrip` | luasocket/mime.c:352-617 | decode(wrap(encode(x))) = x for every x, with either line-break marker and lines of 4 bytes or more. |
| `MimeQp.ShortLines` | luasocket/mime.c:596-602 | With shorter lines the byte 0 does not survive, so that 4 is exactly the limit. |
| `MimeQp.WrapFits` | luasocket/mime.c:570-617 | No line, its soft break included, is longer than the limit, whatever the input of the wrapper. |
| `MimeBase64.Base64RoundTrip` | luasocket/mime.c:161-241 | decode(encode(x)) = x, with the padding of the last group. |
| `MimeBase64Rules.EncodeLetters` | luasocket/mime.c:161-211 | The encoding has 4 letters for every 3 bytes begun; letter k is the one of the alphabet of RFC 2045 for bits 6k to 6k + 5 of the input, filled up with zeros, and `=` behind the end. |
| `MimeBase64Rules.UnletterIs` | luasocket/mime.c:148-154 | Each letter of the alphabet is read as its number, and every byte outside the alphabet and `=` is ignored. |
| `MimeBase64Rules.DecodeFour` | luasocket/mime.c:217-241 | Four letters are read as the three bytes of their bits, and as two or one when padding stands in the fourth or third place. |
| `MimeBase64Rules.WrapLines` | luasocket/mime.c:103-143 | Text without line breaks is cut exactly after every so many bytes. |
| `MimeBase64Rules.WrapBreak` | luasocket/mime.c:119-128 | A line feed in the text ends the line, and every CR is dropped. |
| `MimeBase64Rules.WrapFits` | luasocket/mime.c:103-143 | No line is longer than a positive limit, whatever the input of the wrapper. |
| `MimeBase64.NoiseIgnored` | luasocket/mime.c:217-221 | Bytes outside the alphabet, wherever they stand, make no difference to the decoder. |
| `MimeBase64.WrappedRoundTrip` | luasocket/mime.c:103-334 | decode(wrap(encode(x))) = x for every line length. |
| `MimeBase64.EncodePieces` | luasocket/mime.c:251-288 | Encoding two pieces with the carry between them is encoding the whole. |
| `MimeBase64.DecodePieces` | luasocket/mime.c:297-334 | Decoding two pieces with the carry between them is decoding the whole. |
| `MimeFilters.QpEncodeByte` | luasocket/mime.c:386-424 | The loop over the carry array of three bytes settles the pending bytes as specified. |
| `MimeFilters.QpDecodeByte` | luasocket/mime.c:491-517 | The same for the decoder. |
| `MimeFilters.MimeQp` | luasocket/mime.c:448-484 | The incremental function `qp` returns the specified output and carry. |
| `MimeFilters.MimeQpwrp` | luasocket/mime.c:570-617 | The line wrapper's loop returns the specified output and room. |
| `MimeFilters.MimeWrp` | luasocket/mime.c:103-143 | The same for the wrapper of plain lines. |
| `MimeFilters.B64EncodeByte` | luasocket/mime.c:161-180 | The carry of the Base64 encoder, and its four letters once it is full. |
| `MimeFilters.B64DecodeByte` | luasocket/mime.c:217-241 | The carry of the Base64 decoder, and its bytes once it is full. |
| `MimeFilters.CodecsObey` | luasocket/luasocket_scripts.c:41-48 | Every codec under `filter.cycle` keeps the filter protocol. |
| `MimeFilters.CodecComputes` | luasocket/mime.c:103-617 | Every codec under `filter.cycle`, run over its input in any pieces, computes its function of the whole input. |
| `MimeFilters.RunChain` | luasocket/luasocket_scripts.c:50-80 | A chain of codecs driven over any pieces puts out the composition of their functions. |
| `MimeFilters.QpChain` | luasocket/mime.c:352-617 | For the chain of encoder, wrapper and decoder that composition is the identity. |
| `MimeFilters.B64Chain` | luasocket/mime.c:103-334 | The same for Base64. |
| `BufferedIo.Buffer.Get` | luasocket/buffer.c:260-273 | Returns what is buffered or what the transport delivers next; the stream to come is the same. |
| `BufferedIo.Buffer.Skip` | luasocket/buffer.c:249-254 | Uses up bytes of the buffer: consumed and buffered together stay what was delivered, and `received` counts the consumed. |
| `BufferedIo.Buffer.RecvRaw` | luasocket/buffer.c:187-200 | Returns exactly the next bytes of the stream, or those before the transport's next error. |
| `BufferedIo.Buffer.RecvLine` | luasocket/buffer.c:225-243 | Returns the bytes before the first LF of the stream with every CR dropped, and uses up the LF; or those before the next error. |
| `BufferedIo.DropCrIs` | luasocket/buffer.c:225-243 | In a line every CR goes, wherever it stands, and nothing else. |
| `BufferedIo.Buffer.RecvAll` | luasocket/buffer.c:205-219 | Returns everything before the next error, which is no error when the stream has ended and something came. |
| `BufferedIo.Serve` | luasocket/buffer.c:108-152 | The values of any list of reads are a function of the stream alone, however the transport cuts it; the list is cut short by the transport's next error exactly at the first read that reaches beyond it. |
| `BufferedIo.SendRaw` | luasocket/buffer.c:168-182 | What goes out and the error returned are what the transport takes of the data in blocks until one fails: a prefix of the data, all of it when there is no error. |
| `JsonText.StringBack` | cjson/lua_cjson.c:884-942 | Every byte string is read back from its escaped text. |
| `JsonText.ValueBack` | cjson/lua_cjson.c:1134-1250 | The parser reads the text of a tree back and stops right behind it, at every depth within the limit. |
| `JsonText.JsonRoundTrip` | cjson/lua_cjson.c:659-1290 | decode(encode(v)) = v for trees of byte strings, booleans, null, non-empty arrays and objects with distinct keys within the depth limit. |
| `JsonRules.TextForm` | cjson/lua_cjson.c:565-700 | The text of every tree, with its brackets, its words and its commas only between elements. |
| `JsonRules.OtherBytes` | cjson/lua_cjson.c:152-186 | Which bytes are printed as themselves, and the `\u00` form of control bytes without a short escape. |
| `JsonRules.ShortEscape` | cjson/lua_cjson.c:152-442 | Each short escape stands for its byte, in print and when read. |
| `JsonRules.NoControls` | cjson/lua_cjson.c:462-486 | No byte of an escaped string is below 32 or is 127. |
| `JsonRules.RawByte` | cjson/lua_cjson.c:895-942 | Every byte but 0, the quote and the backslash is read as it stands, control bytes included. |
| `JsonRules.NoEscape` | cjson/lua_cjson.c:900-923 | A backslash with a byte behind it that starts no escape is an error. |
| `JsonRules.Utf8Back` | cjson/lua_cjson.c:771-806 | A reader written from section 3 of RFC 3629 reads every code point outside the surrogates back from the bytes that the parser makes of it. |
| `JsonRules.Utf8Only` | cjson/lua_cjson.c:771-806 | That reader accepts no other bytes for a code point. |
| `JsonRules.Utf8Shortest` | cjson/lua_cjson.c:771-806 | It accepts no part of these bytes. |
| `JsonRules.UnicodeBasic` | cjson/lua_cjson.c:833-882 | `\uXXXX`, in digits of either case, is read as the UTF-8 of its code point, surrogates excepted. |
| `JsonRules.UnicodePair` | cjson/lua_cjson.c:845-869 | A surrogate pair is read as the UTF-8 of the code point above 0xffff that it names. |
| `JsonRules.UnicodeLone` | cjson/lua_cjson.c:845-860 | A low surrogate, or a high one without an escape behind it, is an error. |
| `JsonRules.UnicodeMismatch` | cjson/lua_cjson.c:856-865 | So is a high surrogate with anything but a low one behind it. |
| `JsonRules.UnicodeBad` | cjson/lua_cjson.c:818-831 | So are fewer than four digits. |
| `JsonRules.DepthLimit` | cjson/lua_cjson.c:1120-1132 | Arrays nested n deep are read exactly when n is at most 1000. |
| `JsonRules.PrinterLimit` | cjson/lua_cjson.c:535-556 | And printed exactly then. |
| `JsonGrammar.DecodeExactly` | cjson/lua_cjson.c:884-1290 | A text is decoded to a value exactly when the grammar of RFC 8259, without numbers, with raw control bytes in strings and 1000 levels at most, derives it: one value with white space around it, up to the end or a byte 0. |
| `JsonGrammar.TableHolds` | cjson/lua_cjson.c:1134-1180 | The keys of a decoded object differ, and each has the value of the last member with that key. |
| `JsonParser.Parser.Next` | cjson/lua_cjson.c:1013-1090 | The scanner advances its place in the text by one token, which is the specified one, and never past the end. |
| `JsonParser.Parser.ProcessValue` | cjson/lua_cjson.c:1115-1250 | The recursive parser with its place and depth as fields reads the specified value, stops right behind it and returns to the depth at which it started, or throws exactly where the specification has an error. |
| `JsonParser.DecodeJson` | cjson/lua_cjson.c:1252-1290 | Decoding with that parser gives the specified result for every text. |
| `JsonBuffer.StrBuf.NewSize` | cjson/strbuf.c:134-160 | The new size has room for the request and the terminator; a smaller request shrinks the buffer exactly to it. |
| `JsonBuffer.StrBuf.PutString` | cjson/strbuf.c:182-198 | Appends the string, growing where there is no room and staying in place where there is. |
| `JsonBuffer.AppendString` | cjson/lua_cjson.c:462-486 | The printer of strings appends the escaped text, and its unchecked appends stay inside the room reserved at the start. |
| `JsonBuffer.AppendData` | cjson/lua_cjson.c:659-700 | Appends the text of the tree, or stops exactly when it is nested too deeply. |
| `JsonBuffer.EncodeJson` | cjson/lua_cjson.c:702-731 | Encoding gives the text, or an error exactly for trees nested too deeply. |
| `JsonBuffer.NextString` | cjson/lua_cjson.c:884-942 | The scanner decodes the string or reports an error as specified, and no unchecked append passes the end of the buffer sized from the text. |

## Left out

- LpegOperators.SeqMeans: asks that the second operand is not the pattern that always fails, unless the first is empty or fails too; the builders then drop the first operand, and what that does to results and halting is stated by `LpegCorrect.KeptEval` and `LpegCorrect.HaltsExactly`.
- LpegCorrect.AlwaysHalts: one direction only; a body with a stray step back may still consume a byte on every match. The condition that is exact is that of `LpegCorrect.HaltsExactly`.
- LpegCorrect.MatchPattern: where the semantics gives no result the run never ends, so that the method cannot be called there.
- LpegLimits.LevelEnough: one direction only; a body that may fail by its code may never fail on any subject. The condition that is exact is that of `LpegLimits.AltExact`.
- LpegFix.MatchGrammar: where an accepted grammar gives no result the run never ends, so that the method cannot be called there.
- LpegTotal.AcceptedHalts: one direction only; an alternative that `verify` passes over may be tried and still end. The condition that is exact is that of `LpegMeaning.GrammarHalts`.
- SprotoMessages.DecodeExactly: a length of 2^32 - 4 or more, which wraps around when 4 is added to it in 32 bits, counts as too long.
- LpegLimits.TameSane: one direction only, like `LpegLimits.LevelEnough`.
- A grammar used as part of another pattern, the order in which a table lists its rules, and names of rules other than numbers.
- LPeg's look-behind patterns, user functions, match-time captures, the values that captures produce, printing, and growth of the stack and capture arrays.
- Overflow of 32-bit sizes in repetitions of huge patterns, and the renumbering of capture tables when patterns are joined: a capture's index stands for its value.
- LPeg's pattern operators write their code into new memory; here they return it as a value. What changes code in place (rotating captures, threading jumps, rotating choices, fixing grammars) is done on arrays.
- An instruction word is 8 bytes, so that a charset takes four words.
- SprotoRoundTrip.RoundTrip: objects have no empty arrays (the encoder omits them) and no map fields; encodings are shorter than 4 GiB; the nesting limit of the callbacks is not modelled.
- SprotoEncode.ObjectInto: values that a callback rejects raise an error of the callback and are left out.
- The sproto schema compiler's own parsing, protocol lookup and dumping.
- LtnChain.Drive: a sink that fails is not modelled.
- `eol`, `dot`, `stuff` and the other small LTN12 and MIME helpers.
- Timeouts of the buffered reader are errors of the transport; `setstats` and the argument checks of `send` and `receive` are not modelled.
- JsonText.JsonRoundTrip: numbers, sparse arrays, numeric keys and the configuration switches are not modelled; the default limits are.
- Memory: allocation never fails, and a buffer that `realloc` moves is a new one.
- Everything else in the repository: sockets, the scripts for protocols, the small codecs, class glue and bytecode conversion.
