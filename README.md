# Collating *Os Lusíadas*: a Dafny model

LusiadasDigital collates three witnesses of canto 1 of *Os Lusíadas* into one
TEI critical apparatus:

- a modernised, lemmatised edition (`#VMod`);
- two historical transcriptions (`#VEsq`, `#VDir`).

The collation script exists in two copies:

- `LusiadasTextos/juntarversoescompleto.py`, the newer one;
- `juntarversoescompleto.py` at the root of the repository, the early one.

Both copies run the same pipeline:

1. Tokenize every line. A historical `<l>` is flattened into one text and split into words and punctuation. A modern `<l>` gives one token per `<w>`/`<pc>` child.
2. Align each historical line with the modern line, given the opcodes of a diff. The result is:
   - a slot per modern token, holding the aligned token or nothing;
   - the blocks of tokens the witness inserts before a modern position.
3. Walk the modern positions `0..N` and build the collated line:
   - an `<app>` for the blocks anchored at the position, if any;
   - then either the modern token copied verbatim or an `<app>` whose `<rdg>` readings share out the three witnesses.
4. At document level, find canto 1 in each witness. Walk its stanzas and their lines by position, up to the longest witness. Wrap the result in a TEI document with a header naming the witnesses.

The two copies differ in the legacy token, the verbatim test, the keys of the
readings and the rendering of insertions. Each copy has its own modules over
shared ones:

| module | file | what it is |
|---|---|---|
| `Text`, `Sorting`, `Grouping`, `Loops`, `Wrappers` | text.dfy, sorting.dfy, grouping.dfy, loops.dfy, wrappers.dfy | Python's `str` operations; stable `sorted`; `dict.setdefault(k, []).append(v)`; loops that append a segment per position |
| `Xml` | xml.dfy | input element trees, output apparatus nodes, the text a witness reads off a line |
| `Tokens` | tokens.dfy | flattening a historical `<l>`, the `re.findall` split, the modern tokenizer |
| `Aligner` | aligner.dfy | `_align_target_to_base` (identical in both copies) |
| `Apparatus` | apparatus.dfy | witness ids, the merged and sorted insertion schedule, runs of one anchor, sorted `wit` lists |
| `Collator`, `LineCollator`, `LusCollator` | collator.dfy, line_collator.dfy, lus_collator.dfy | the newer copy: tokens, readings, insertion groups; `collate_line`; `collate_lus` |
| `EarlyCollator`, `EarlyLine`, `EarlyLus` | early_collator.dfy, early_line.dfy, early_lus.dfy | the same three layers for the early copy |
| `TeiDoc` | tei_doc.dfy | the XPath selections, positional padding and TEI tree both `collate_lus` share |
| `Roman`, `TagName` | roman.dfy, tag_name.dfy | the `romano` template filter and `get_local_tag_name` |

The loops of the source are methods with loop invariants. Each method is proved
equal to a function that states what it computes:

- `TokenizeLegacy`, `TokenizeOld`, `TokenizeModern`;
- `AlignTargetToBase`, `MergeBlocks`, `GatherBlocks`, `GatherTexts`;
- `CollateLine`, `CollateEarlyLine`, `CollateLus`, `CollateEarlyLus`.

Lemmas state what those functions promise.

- **Aligner.** Every token of a witness is placed exactly once and in order, in a slot or in a block.
- **Divergence.** The readings of an `<app>` share out the three witnesses.
- **Order.** Readings and blocks come in the order the sort keys give.
- **Read-back.** Reading a collated line as one witness gives back that witness's tokens, in order. This holds outright for `#VMod`. For a legacy witness it holds in the newer copy when the witness inserts at most one block before each modern position (`LineCollator.InsertsOnce`). In the early copy it holds once the words are joined with spaces, because that copy joins the blocks of one position into one text.

Two things are inputs rather than code:

- The diff (difflib's `SequenceMatcher`). Its opcodes are constrained by `Aligner.ValidOpcodes`: contiguous, covering both sequences, and with each tag's own condition. At document level it is a function `differ` with `LusCollator.Sound(differ)`.
- Python's `str(k)` of an insertion block, which the newer copy sorts by. It is a function `blockRepr`.

Two places where the code does something other than the evident intent; the model follows the code:

- The space between tails is suppressed by `re.match(r'[\s\-.,:;?!&]$', part)`. Because that match is anchored at the start, it suppresses the space only when the previous part is a single such character, optionally followed by a newline (`Tokens.SuppressesSpace`). `Tokens.SuppressesSpaceAnchored` shows the difference from the evident intent, a part that ends with such a character (`Tokens.EndsWithSpacing`): `"palavra-"` ends with a hyphen and is still followed by a space. Every part the anchored test accepts also ends with such a character.
- The early copy reads the number of stanza `i` as `estrofe_vdir.get('n')` without first making sure that `estrofe_vdir` exists (`juntarversoescompleto.py:168-169`). Below the maximum stanza count at least one stanza exists, so this never fails. `EarlyLus.EarlyStanzaN` proves it agrees with the guarded chain of the newer copy.

## Model

| member | source | states |
|---|---|---|
| Roman.Romano | homepage/templatetags/roman.py:6-16 | a value that `int()` cannot convert is returned unchanged; an integer outside 1..10 comes back as that integer; a numeral is returned exactly for the integers 1..10 |
| Roman.RomanoNumerals | homepage/templatetags/roman.py:12-16 | each of 1..10 becomes a non-empty numeral written with `I`, `V`, `X` only, whose subtractive value is the input |
| Roman.NumeralsDistinct | homepage/templatetags/roman.py:12-15 | two different inputs in 1..10 give different numerals |
| TagName.LocalTagName | converterhtml.py:12-20 | a tag without `}` is returned unchanged; otherwise the tag is a prefix without `}`, then `}`, then the result; the result is a suffix of the tag, strictly shorter when `}` occurs |
| TagName.PrefixUnique | converterhtml.py:18-19 | there is only one way to split a tag at its first `}` |
| TagName.LocalTagNameOfClark | converterhtml.py:18-19 | `{ns}local` gives `local` when neither part contains `}` |
| TagName.LocalTagNameIdempotent | converterhtml.py:18-20 | applying the function twice to `{ns}local` equals applying it once |
| TagName.LocalTagNameExamples | converterhtml.py:13-16 | the doc-comment examples: `{http://www.tei-c.org/ns/1.0}div` gives `div`, `head` gives `head` |
| TagName.LocalTagNameIsLocalName | converterhtml.py:18-20 | on a tag with at most one `}`, `split('}', 1)[1]` agrees with the `split('}')[-1]` the collators use |
| Xml.LocalName | LusiadasTextos/juntarversoescompleto.py:63 | `split('}')[-1]`: a suffix of the tag without `}`, right after its last `}`, the whole tag when there is none |
| Xml.LocalNameOfTeiTag | LusiadasTextos/juntarversoescompleto.py:63 | the local name of `{TEI}local` is `local` |
| Text.LowerChar | LusiadasTextos/juntarversoescompleto.py:40 | `A`-`Z` and the Latin-1 capitals `À`-`Þ` other than `×` move up by 32 to their small letters; every other character, `×` included, is kept; the result is never a capital |
| Text.LowerIdempotent | LusiadasTextos/juntarversoescompleto.py:40 | lowering an already lowered text changes nothing |
| Text.LowerKeeps | LusiadasTextos/juntarversoescompleto.py:40 | a text without capitals is its own lower-case form |
| Text.Strip | LusiadasTextos/juntarversoescompleto.py:32 | the result is the input with its leading and trailing white space cut off and the inner white space kept: a slice of the input, preceded and followed only by white space, that neither starts nor ends with white space |
| Text.StripKeepsContent | LusiadasTextos/juntarversoescompleto.py:32 | stripping removes white space only |
| Text.ReplaceAmpKeeps | LusiadasTextos/juntarversoescompleto.py:34 | `replace('&amp;', '&')` leaves a text without `&` unchanged |
| Text.ReplaceAmpPrefix | LusiadasTextos/juntarversoescompleto.py:34 | a leading text without `&` is kept, and the replacement goes on after it |
| Text.AmpKept | LusiadasTextos/juntarversoescompleto.py:34 | a `&` that does not begin `&amp;` (as in `&x` or `&&amp;`) is kept and the replacement goes on after it |
| Text.AmpFront | LusiadasTextos/juntarversoescompleto.py:34 | an `&amp;` at the front becomes `&` |
| Text.ReplaceAmpAt | LusiadasTextos/juntarversoescompleto.py:34 | when the text before an `&amp;` has no `&`, that text is kept, the `&amp;` becomes `&`, and the replacement goes on after it |
| Text.JoinSpaceAppend | juntarversoescompleto.py:249 | `" ".join` of two non-empty lists is the two joins with one space between |
| Sorting.SortBy | LusiadasTextos/juntarversoescompleto.py:211 | sorting is a permutation |
| Sorting.SortSorted | LusiadasTextos/juntarversoescompleto.py:211 | under a total preorder key the result is sorted |
| Sorting.SortStable | LusiadasTextos/juntarversoescompleto.py:211 | the sort is stable: the elements of one key keep their order |
| Grouping.Add | LusiadasTextos/juntarversoescompleto.py:236 | `setdefault(k, []).append(v)`: a new key opens a group at the end; an existing key's group gains `v` at its end; nothing else changes; the members grow by `v` |
| Grouping.GroupAllSpec | LusiadasTextos/juntarversoescompleto.py:304-324 | filling a dict pair by pair gives distinct keys, non-empty groups, a group for every key, each group holding the values of its key in order, and all values exactly once |
| Grouping.GroupAllMembership | LusiadasTextos/juntarversoescompleto.py:304-324 | a value is in a key's group exactly when that pair was added |
| Grouping.GroupThreeCases | LusiadasTextos/juntarversoescompleto.py:304-324 | the five groupings three keyed values can have, by which keys coincide |
| Grouping.GroupThreeOrder | juntarversoescompleto.py:288-294 | grouping three distinct values puts the first in the first group only, which has the first key, and never puts the second in a later group than the third |
| Tokens.Flatten | LusiadasTextos/juntarversoescompleto.py:16-30 | the loop over the children builds `full_text_parts` as `Tokens.Parts` defines it |
| Tokens.SuppressesSpaceAnchored | LusiadasTextos/juntarversoescompleto.py:28 | the anchored `re.match` accepts only parts that end with a spacing character, but not every such part: `"palavra-"` still gets a space after it |
| Tokens.PartsStartWithText | LusiadasTextos/juntarversoescompleto.py:18-19 | a non-empty `l.text` is the first part |
| Tokens.PartsKeepSources | LusiadasTextos/juntarversoescompleto.py:18-30 | apart from white space, the parts are exactly `l.text` followed by the children's tails: only spaces are added |
| Tokens.PartsIgnoreChildText | LusiadasTextos/juntarversoescompleto.py:21-30 | the children's own text never reaches the parts |
| Tokens.WordRun | LusiadasTextos/juntarversoescompleto.py:37 | `[^\s.,:;?!&]+` matches the longest prefix of word characters |
| Tokens.LexShape | LusiadasTextos/juntarversoescompleto.py:37 | each match of the `findall` is a non-empty word run or one punctuation character |
| Tokens.LexCoversLine | LusiadasTextos/juntarversoescompleto.py:37 | the matches, concatenated, are the line with its white space removed |
| Tokens.ModernChildren | LusiadasTextos/juntarversoescompleto.py:62 | the union of `./tei:w` and `./tei:pc` selects exactly the direct `w` and `pc` children: every selected element is one, and every such child is selected |
| Tokens.ModernChildrenInOrder | LusiadasTextos/juntarversoescompleto.py:62 | the selection keeps document order: the children selected from two runs are those of the first run, then those of the second |
| Tokens.TokenizeModern | LusiadasTextos/juntarversoescompleto.py:56-69 | one token per `w`/`pc` child, in document order |
| Tokens.ModernTokenShape | LusiadasTextos/juntarversoescompleto.py:62-68 | tag is the local name (`w` or `pc`); `is_punct` holds iff the tag is `pc`; the text is kept and lowered for comparison; attributes are carried through |
| Tokens.ModernTokensAt | juntarversoescompleto.py:61-68 | token `k` is the token of child `k` |
| Collator.TokenizeLegacy | LusiadasTextos/juntarversoescompleto.py:10-54 | the tokenizer loop returns `Collator.LegacyTokensOf(l)` |
| Collator.LegacyTokensSpec | LusiadasTextos/juntarversoescompleto.py:32-53 | one token per match, in order; the surfaces, concatenated, are the flattened line without white space |
| Collator.LegacyTokenShape | LusiadasTextos/juntarversoescompleto.py:39-52 | `&` becomes surface `&`, comparable `e`, tag `w`, not punctuation, attrs lemma `e` / pos `CCONJ`; any other match is lowered, has no attrs, is `pc` exactly when it is one punctuation character, and otherwise holds only word characters |
| EarlyCollator.TokenizeOld | juntarversoescompleto.py:11-54 | the early tokenizer loop returns `EarlyCollator.OldTokensOf(l)` |
| EarlyCollator.OldTokensSpec | juntarversoescompleto.py:38-54 | one triple per match, in order; the surfaces, concatenated, are the flattened line without white space |
| EarlyCollator.OldTokenShape | juntarversoescompleto.py:43-52 | the comparable form is `e` for `&` and the lowered surface otherwise; `is_punct` holds exactly for one character of `.,:;?!&`; other matches hold only word characters |
| Aligner.AlignTargetToBase | LusiadasTextos/juntarversoescompleto.py:71-94 | the loop over the opcodes returns the slots `Aligner.Slots` and the blocks `Aligner.Inserts` |
| Aligner.FillSlots | LusiadasTextos/juntarversoescompleto.py:78-88 | one opcode fills its own base range as `Aligner.OpSlots` says and leaves later slots empty |
| Aligner.AddBlocks | LusiadasTextos/juntarversoescompleto.py:89-92 | one opcode appends its blocks to `insertions_before_base_idx` |
| Aligner.OpInserts | LusiadasTextos/juntarversoescompleto.py:89-92 | the blocks of one opcode are non-empty and anchored at its `i2` (equal to `i1` for `insert`) |
| Aligner.AlignedSlot | LusiadasTextos/juntarversoescompleto.py:77-88 | under valid opcodes, slot `x` of an `equal` opcode holds `target[j1 + (x - i1)]`, a token whose comparable equals the base's; a `replace` fills its first min(base, target) positions and leaves the rest empty; a `delete` leaves its slots empty |
| LineCollator.AlignedLength | LusiadasTextos/juntarversoescompleto.py:74 | the aligned array has one slot per base token |
| Aligner.InsertsAnchored | LusiadasTextos/juntarversoescompleto.py:89-92 | every block is non-empty, anchored in `0..len(base)`, and the anchors never decrease |
| Aligner.AlignPlacesEveryToken | LusiadasTextos/juntarversoescompleto.py:71-94 | reading, position by position, the blocks anchored there followed by the slot gives back the whole target: every target token is placed exactly once, in order |
| Aligner.NoInsertsForEmpty | LusiadasTextos/juntarversoescompleto.py:89-92 | an empty target inserts nothing |
| Apparatus.WitId | LusiadasTextos/juntarversoescompleto.py:108-112 | `wit_ids` maps `VMod`, `VEsq`, `VDir` to `#VMod`, `#VEsq`, `#VDir` |
| Apparatus.WitnessesDiffer | LusiadasTextos/juntarversoescompleto.py:108-112 | the three witness ids are distinct |
| Apparatus.SortedWitsSpec | LusiadasTextos/juntarversoescompleto.py:260 | `sorted(wits_list)` is a permutation in ascending string order |
| Apparatus.TagBlocks | LusiadasTextos/juntarversoescompleto.py:207-210 | each loop tags the blocks of one witness with its name, in order |
| Apparatus.MergeBlocks | LusiadasTextos/juntarversoescompleto.py:205-211 | the merged list is `Apparatus.Schedule`, sorted by anchor |
| Apparatus.ScheduleSpec | LusiadasTextos/juntarversoescompleto.py:205-211 | the schedule is sorted by anchor and holds the tagged blocks of both witnesses; at one anchor the `VEsq` blocks come before the `VDir` ones |
| Apparatus.StartRuns | LusiadasTextos/juntarversoescompleto.py:213-218 | `insert_ptr` reaches position `p` at the first block anchored at `p` or later; the blocks between consecutive positions are exactly those anchored at `p`; past the last anchor the pointer is at the end |
| Apparatus.RunSplit | LusiadasTextos/juntarversoescompleto.py:211-219 | the run at anchor `p` is the `VEsq` blocks at `p` followed by the `VDir` blocks at `p` |
| Apparatus.TaggedAtAnchor | LusiadasTextos/juntarversoescompleto.py:89-92 | when a witness has at most one block per anchor, its entry at `p`, if any, carries exactly the tokens inserted at `p` |
| Apparatus.RenderWits | LusiadasTextos/juntarversoescompleto.py:331-335 | the `rdg`s rendered from the groups list, together, exactly the groups' witnesses |
| Collator.GatherBlocks | LusiadasTextos/juntarversoescompleto.py:216-237 | the `while` loop consumes exactly the blocks anchored at the position and groups them as `Collator.BlockGroups` |
| Collator.GroupsHoldWits | LusiadasTextos/juntarversoescompleto.py:236 | block groups have distinct keys; each lists the witnesses that inserted its block; together they hold every witness of the run once |
| Collator.GroupKeyIsBlock | LusiadasTextos/juntarversoescompleto.py:236 | each group's key is a block some witness inserted there |
| Collator.BlockLeTotal | LusiadasTextos/juntarversoescompleto.py:251-252 | the block order `(0 if k else 1, str(k))` is a total preorder |
| Collator.InsertionOrder | LusiadasTextos/juntarversoescompleto.py:251-252 | the sorted block groups are in ascending order of `str(k)` |
| Collator.LegacyWitsNotMod | LusiadasTextos/juntarversoescompleto.py:257-258 | no block group lists `#VMod`, so the `continue` never skips one |
| Collator.RenderInsertion | LusiadasTextos/juntarversoescompleto.py:239-271 | the insertion-`app` code builds `Collator.InsertionApp` |
| Collator.InsertionSpec | LusiadasTextos/juntarversoescompleto.py:239-271 | the `app` opens with an empty `#VMod` reading, then has one `rdg` per distinct block: its tokens as `w`/`pc` leaves with their tags, attributes and text, and its witnesses sorted; identical blocks from both witnesses share one `rdg` |
| Collator.InsertionCovers | LusiadasTextos/juntarversoescompleto.py:216-237 | every block of the run has its group, and every witness of the run is listed once |
| Collator.ReadingLeTotal | LusiadasTextos/juntarversoescompleto.py:326-329 | the reading order `(rank, text or '')` is a total preorder |
| Collator.RenderPosition | LusiadasTextos/juntarversoescompleto.py:274-340 | the position code builds `Collator.PositionNode`: the modern token verbatim, or an `app` of the grouped readings |
| Collator.PairsOfWitness | LusiadasTextos/juntarversoescompleto.py:306-324 | each witness is entered once, under its own key |
| Collator.WitnessKeys | LusiadasTextos/juntarversoescompleto.py:307-324 | the modern key is (text, tag, attrs); a legacy `w` borrows the modern attrs, other tokens keep their own, and an absent token has the key (None, None, ∅) |
| Collator.GroupWitnesses | LusiadasTextos/juntarversoescompleto.py:304-324 | the modern key has a group, and the groups hold the three witnesses once each |
| Collator.OrderedMembers | LusiadasTextos/juntarversoescompleto.py:326-329 | the sorted groups keep their keys and witnesses, are in reading order, and the first holds `#VMod` |
| Collator.DivergenceSpec | LusiadasTextos/juntarversoescompleto.py:300-340 | the readings share out `#VMod`, `#VEsq`, `#VDir` exactly once each; each `wit` list is sorted; each reading holds its witnesses' common reading; the first holds `#VMod` |
| Collator.DivergenceOrder | LusiadasTextos/juntarversoescompleto.py:326-329 | after the modern reading, readings with text come in ascending text order, and the empty reading comes last |
| Collator.SameRdgIff | LusiadasTextos/juntarversoescompleto.py:304-324 | two witnesses share a reading exactly when their keys are equal |
| Collator.ModRdgContent | LusiadasTextos/juntarversoescompleto.py:337-340 | the reading with `#VMod` holds one leaf: the modern tag, attrs and text |
| Collator.LegacyRdgContent | LusiadasTextos/juntarversoescompleto.py:311-324 | a legacy witness reads nothing when absent; a `w` with the modern attrs and its own text; any other token with its own tag, attrs and text |
| Collator.SharesModRdg | LusiadasTextos/juntarversoescompleto.py:292-324 | a legacy witness shares the modern reading exactly when its token is present with the same text and tag, and, if it is not a `w`, the same attrs |
| Collator.LegacyShareRdg | LusiadasTextos/juntarversoescompleto.py:311-324 | `#VEsq` and `#VDir` share a reading exactly when their keys are equal |
| Collator.AppShowsDivergence | LusiadasTextos/juntarversoescompleto.py:292-300 | when the verbatim test fails, the `app` has at least two readings |
| LineCollator.LineScheduleSorted | LusiadasTextos/juntarversoescompleto.py:205-211 | the insertion schedule of a line is sorted by anchor |
| LineCollator.EmitPosition | LusiadasTextos/juntarversoescompleto.py:215-340 | one turn of the `for` loop appends `LineCollator.LineStep` and advances `insert_ptr` past the blocks of the position |
| LineCollator.WalkPositions | LusiadasTextos/juntarversoescompleto.py:215-340 | the walk over positions `0..len(mod)` builds `LineCollator.LineUpTo` |
| LineCollator.CollateLine | LusiadasTextos/juntarversoescompleto.py:195-342 | `collate_line` returns `LineCollator.CollatedLine` |
| LineCollator.PositionText | LusiadasTextos/juntarversoescompleto.py:274-340 | at a position, `#VMod` reads the modern text and each legacy witness reads its aligned token's text or nothing |
| LineCollator.DivergenceText | LusiadasTextos/juntarversoescompleto.py:300-340 | in a divergence `app`, a witness reads exactly the text of its key |
| LineCollator.InsertionReadsMod | LusiadasTextos/juntarversoescompleto.py:243-244 | `#VMod` reads nothing in an insertion `app` |
| LineCollator.InsertionTextOne | LusiadasTextos/juntarversoescompleto.py:239-271 | a legacy witness with one block in the run reads that block's tokens |
| LineCollator.InsertionReadsEsq | LusiadasTextos/juntarversoescompleto.py:213-271 | with one block per anchor, `#VEsq` reads at position `p` exactly the tokens it inserted there |
| LineCollator.InsertionReadsDir | LusiadasTextos/juntarversoescompleto.py:213-271 | the same for `#VDir` |
| LineCollator.ModReads | LusiadasTextos/juntarversoescompleto.py:215-340 | the whole line read as `#VMod` is the modern text |
| LineCollator.EsqReads | LusiadasTextos/juntarversoescompleto.py:215-340 | the line up to position `n`, read as `#VEsq`, is the woven slots and blocks of `#VEsq` |
| LineCollator.DirReads | LusiadasTextos/juntarversoescompleto.py:215-340 | the same for `#VDir` |
| LineCollator.CollationReadsBack | LusiadasTextos/juntarversoescompleto.py:195-342 | read as `#VMod` the collated line is the modern line; read as a legacy witness it is that witness's tokens in order, when the witness inserts at most one block per anchor |
| EarlyCollator.RenderEarlyPosition | juntarversoescompleto.py:261-310 | the early position code builds `EarlyCollator.EarlyPositionNode` |
| EarlyCollator.EarlyPairsOfWitness | juntarversoescompleto.py:282-294 | each witness is entered once under its (text, attrs) key |
| EarlyCollator.EarlyWitnessKeys | juntarversoescompleto.py:282-293 | `#VMod` is keyed by its text and the modern attrs; `#VEsq` and `#VDir` by their text and empty attrs |
| EarlyCollator.EarlyGroupMembers | juntarversoescompleto.py:282-294 | the groups hold the three witnesses once each, the modern group comes first, and `#VEsq` is never after `#VDir` |
| EarlyCollator.OrderedIsGrouped | juntarversoescompleto.py:296-297 | sorting by "holds `#VMod`" leaves the groups in insertion order |
| EarlyCollator.EarlyRdgOfGroup | juntarversoescompleto.py:299-308 | a group's `rdg` lists its witnesses sorted and holds their reading |
| EarlyCollator.EarlyDivergenceSpec | juntarversoescompleto.py:279-310 | the readings share out the three witnesses, carry their text and attrs rather than child elements, have sorted `wit` lists, and the first holds `#VMod` |
| EarlyCollator.EarlyDivergenceOrder | juntarversoescompleto.py:296-297 | only the first reading holds `#VMod`, and the `#VEsq` reading never follows the `#VDir` one |
| EarlyCollator.EarlyRdgContent | juntarversoescompleto.py:299-308 | the `#VMod` reading has the modern text and attrs; a legacy reading has its text and no attrs |
| EarlyCollator.EarlySharing | juntarversoescompleto.py:282-294 | a legacy witness shares the modern reading exactly when its text is the modern text and the modern token has no attrs; `#VEsq` and `#VDir` share exactly when their texts are equal |
| EarlyCollator.EarlyAppShowsDivergence | juntarversoescompleto.py:272-279 | when the verbatim test fails, the `app` has at least two readings |
| EarlyCollator.GatherTexts | juntarversoescompleto.py:237-241 | the `while` loop consumes the blocks anchored at the position and builds `EarlyCollator.BlockTexts` |
| EarlyCollator.BlockTextsSpec | juntarversoescompleto.py:237-241 | a witness has an entry exactly when it inserted at this position; its entry holds the surfaces of all its blocks there, in order |
| EarlyCollator.BlockTextsEmpty | juntarversoescompleto.py:243 | the insertion `app` is written exactly when some block is anchored at the position |
| EarlyCollator.RenderEarlyInsertion | juntarversoescompleto.py:243-258 | the insertion code builds the `app` of `EarlyCollator.EarlyInsertionRdgs` |
| EarlyCollator.InsertionGroups | juntarversoescompleto.py:247-253 | the texts are grouped with `#VEsq` first, then `#VDir` |
| EarlyCollator.EarlyInsertionShape | juntarversoescompleto.py:243-258 | the `app` is an empty `#VMod` reading, then one reading per witness that inserted, its text the space-joined surfaces; equal texts share one `rdg` listing `#VEsq #VDir` |
| EarlyLine.EmitEarlyPosition | juntarversoescompleto.py:236-310 | one turn of the `for` loop appends `EarlyLine.EarlyStep` and advances `insert_ptr` past the blocks of the position |
| EarlyLine.WalkEarly | juntarversoescompleto.py:236-310 | the walk over positions builds `EarlyLine.EarlyLineUpTo` |
| EarlyLine.CollateEarlyLine | juntarversoescompleto.py:214-312 | the early `collate_line` returns `EarlyLine.CollatedEarlyLine` |
| EarlyLine.EarlyPositionText | juntarversoescompleto.py:261-310 | at a position, `#VMod` reads the modern text and each legacy witness its aligned text or nothing |
| EarlyLine.EarlyDivergenceText | juntarversoescompleto.py:279-310 | in a divergence `app`, a witness reads the text of its key |
| EarlyLine.EarlyInsertionText | juntarversoescompleto.py:243-258 | in an insertion `app`, `#VMod` reads nothing, and a legacy witness reads its space-joined text when it inserted |
| EarlyLine.EarlyInsertionReadsEsq | juntarversoescompleto.py:236-258 | at position `p`, `#VEsq` reads the space-joined surfaces of its blocks there, or nothing |
| EarlyLine.EarlyInsertionReadsDir | juntarversoescompleto.py:236-258 | the same for `#VDir` |
| EarlyLine.EarlyModReads | juntarversoescompleto.py:236-310 | the early line read as `#VMod` is the modern text |
| EarlyLine.EarlyEsqReads | juntarversoescompleto.py:236-310 | the line up to position `n`, read as `#VEsq`, is its reading of the woven slots and blocks |
| EarlyLine.EarlyDirReads | juntarversoescompleto.py:236-310 | the same for `#VDir` |
| EarlyLine.EarlyReadingJoins | juntarversoescompleto.py:240-249 | joining the blocks of one anchor into one text changes the reading only in how it is split into words: space-joined, it is the woven tokens space-joined |
| EarlyLine.EarlyCollationReadsBack | juntarversoescompleto.py:214-312 | read as `#VMod` the early line is the modern line; read as a legacy witness, once space-joined, it is that witness's line, and it is empty exactly when the witness has no token |
| TeiDoc.CantosOne | LusiadasTextos/juntarversoescompleto.py:120-122 | `//tei:div[@type="canto" and @n="1"]` selects exactly the canto-1 divisions among the root and its descendants |
| TeiDoc.FirstCantoOne | LusiadasTextos/juntarversoescompleto.py:120-126 | `canto1[0]` is the first canto-1 division in document order |
| TeiDoc.Heads | LusiadasTextos/juntarversoescompleto.py:133 | `./tei:head` selects exactly the `head` children |
| TeiDoc.Stanzas | LusiadasTextos/juntarversoescompleto.py:139-141 | `./tei:lg[@type="estrofe"]` selects exactly the stanza children |
| TeiDoc.Verses | LusiadasTextos/juntarversoescompleto.py:160-162 | `./tei:l` selects exactly the `l` children of a stanza that exists, and nothing for a missing one |
| TeiDoc.SelectionsInOrder | LusiadasTextos/juntarversoescompleto.py:133-162 | the head, stanza and line selections keep document order: those of two runs of children are those of the first run, then those of the second |
| TeiDoc.Max3 | LusiadasTextos/juntarversoescompleto.py:146 | `max` of three counts is one of them and at least each |
| TeiDoc.LookupError | LusiadasTextos/juntarversoescompleto.py:120-144 | no error exactly when every witness has canto 1 with stanzas; a missing canto 1 in any witness is the first error |
| TeiDoc.LStrip | LusiadasTextos/juntarversoescompleto.py:189 | `lstrip('#')` removes a prefix made only of `#` and leaves a suffix that does not start with `#`; a key without `#` is unchanged |
| TeiDoc.PersonOfKey | LusiadasTextos/juntarversoescompleto.py:188-190 | a witness key gives a `person` with that `xml:id` and the name `Versão <key>` |
| TeiDoc.HeaderPersons | LusiadasTextos/juntarversoescompleto.py:178-190 | the header's `particDesc` holds the persons for `VMod`, `VEsq`, `VDir` in that order |
| TeiDoc.DocumentShape | LusiadasTextos/juntarversoescompleto.py:114-178 | the TEI root holds `text` and then `teiHeader`, and the canto holds the head and then the stanzas |
| LusCollator.CollateTriple | LusiadasTextos/juntarversoescompleto.py:167-176 | one line triple is tokenized, aligned and collated as `LusCollator.LusLine` |
| LusCollator.CollateStanza | LusiadasTextos/juntarversoescompleto.py:160-176 | the line loop of a stanza builds `LusCollator.StanzaLines` |
| LusCollator.EmitStanza | LusiadasTextos/juntarversoescompleto.py:148-176 | one turn of the stanza loop extends `LusCollator.StanzasUpTo` by stanza `i` |
| LusCollator.CollateLus | LusiadasTextos/juntarversoescompleto.py:97-192 | `collate_lus` returns `LusCollator.CollateLusSpec` |
| LusCollator.CollateLusErrors | LusiadasTextos/juntarversoescompleto.py:120-146 | the canto error is raised exactly when a witness lacks canto 1; the stanza error exactly when all have it but one lacks stanzas; otherwise a document results |
| LusCollator.NumberedSpec | LusiadasTextos/juntarversoescompleto.py:148-158 | the written stanzas are those positions below the maximum that have a number, in increasing order |
| LusCollator.StanzasEmitted | LusiadasTextos/juntarversoescompleto.py:148-158 | the `t`-th written stanza is the stanza of the `t`-th numbered position |
| LusCollator.StanzaLinesAt | LusiadasTextos/juntarversoescompleto.py:160-176 | a stanza has max(line counts) lines, line `j` being the collation of the three lines `j`, each possibly missing |
| LusCollator.StanzaShape | LusiadasTextos/juntarversoescompleto.py:148-176 | stanza `i` is written exactly when it has a number, as an `lg` with that number holding its collated lines |
| LusCollator.LusLineReadsBack | LusiadasTextos/juntarversoescompleto.py:167-175 | a collated line reads back the modern line, and each legacy line under one block per anchor; a missing legacy line reads nothing |
| EarlyLus.EarlyOldLine | juntarversoescompleto.py:189-191 | a missing line has no tokens; otherwise the surfaces are the flattened line without white space |
| EarlyLus.EarlyStanzaN | juntarversoescompleto.py:168-169 | when at least one stanza exists at the position, the unguarded chain gives the same number as the guarded one |
| EarlyLus.CollateEarlyTriple | juntarversoescompleto.py:184-194 | one line triple is collated as `EarlyLus.EarlyLusLine` |
| EarlyLus.CollateEarlyStanza | juntarversoescompleto.py:178-194 | the early line loop builds `EarlyLus.EarlyStanzaLines` |
| EarlyLus.EmitEarlyStanza | juntarversoescompleto.py:162-194 | one turn of the early stanza loop extends `EarlyLus.EarlyStanzasUpTo` |
| EarlyLus.CollateEarlyLus | juntarversoescompleto.py:99-211 | the early `collate_lus` returns `EarlyLus.EarlyCollateLusSpec` |
| EarlyLus.EarlyCollateLusErrors | juntarversoescompleto.py:126-159 | the same two errors under the same conditions as the newer copy; otherwise a document results |
| EarlyLus.EarlyStanzasEmitted | juntarversoescompleto.py:162-175 | the `t`-th written stanza is the stanza of the `t`-th numbered position |
| EarlyLus.EarlyStanzaLinesAt | juntarversoescompleto.py:178-194 | a stanza has max(line counts) lines, each the early collation of the three lines at its index |
| EarlyLus.EarlyStanzaShape | juntarversoescompleto.py:162-194 | stanza `i` is written exactly when it has a number, as an `lg` with that number holding its lines |
| EarlyLus.EarlyLusLineReadsBack | juntarversoescompleto.py:184-193 | a collated early line reads back the modern line, and each legacy line once space-joined; a missing legacy line reads nothing |

## Left out

- difflib's `SequenceMatcher` (`get_opcodes`, longest-block search, junk heuristics) is a foreign library: its opcodes are an input satisfying `Aligner.ValidOpcodes`, and `differ` at document level is assumed `Sound`.
- lxml parsing, XPath evaluation, `nsmap`, `tostring` and pretty-printing are library code. The input is an element datatype; the output is the `TeiDoc.Tree`/`Xml.Node` datatypes, not serialized text.
- Collator.TokenizeLegacy: an element's children are elements only. lxml also yields comments and processing instructions inside an `<l>`, whose `.tag` is not a string; the newer copy calls `child.tag.split('}')` on every child (`LusiadasTextos/juntarversoescompleto.py:22`) and raises `AttributeError` on them. The model's input has no such children, and that crash is not modelled. (The early copy only compares `child.tag` with a string, `juntarversoescompleto.py:25`, so it would treat such a child as any other.)
- Reading the three files, printing and writing `lus_collated_full.xml` (the module-level script lines of both copies) are I/O.
- The order of attributes inside an element and of the items of a `frozenset` are not modelled: attributes are maps, and two attribute sets are equal exactly when their maps are.
- Python's `str(k)` of an insertion block is the parameter `blockRepr`. The tie-break `0 if k else 1` is constant because blocks are never empty (`Aligner.OpInserts`).
- The early copy's `rdg.set(attr, val)` could overwrite `wit` if a modern token had a `wit` attribute: the model keeps the `wit` list and the attributes apart.
- `int(value)` in `romano` is a Python conversion over arbitrary values: its outcome is the input `converted`.
- `convert_tei_to_html` and the rest of `converterhtml.py` besides `get_local_tag_name`, `etiquetador.py` and `homepage/utils/tei.py` are not part of this model.
- Text.LowerChar: `lower()` is modelled for ASCII and the Latin-1 upper-case letters only; the case mappings of other Unicode blocks (Greek, Cyrillic, Latin Extended) are left out.
- Text.IsSpace: white space for `\s` and `strip()` is the set Python's `str.isspace()` accepts, written out; Unicode categories beyond it are not modelled.
- LusCollator.CollateLus: requires `ModernLinesReadable`. A modern `w`/`pc` without text makes the source raise on `.lower()` (`LusiadasTextos/juntarversoescompleto.py:64-65`), and that crash is not modelled.
- EarlyLus.CollateEarlyLus: requires `ModernLinesReadable`, for the same reason (`juntarversoescompleto.py:64-65`).
- LineCollator.CollationReadsBack: a legacy witness is proved to read back only when it inserts at most one block per anchor (`LineCollator.InsertsOnce`). Opcodes where a longer `replace` is followed by an `insert` at the same index would break it; difflib does not produce two adjacent non-equal opcodes.
- LusCollator.LusLineReadsBack: the legacy read-back carries the same `InsertsOnce` condition.
- EarlyLine.EarlyCollationReadsBack: the legacy read-back holds up to word boundaries (space-joined). The early copy joins the blocks of one anchor into one text, so the reading is not split into tokens the way the witness is.
- EarlyLus.EarlyLusLineReadsBack: the same space-joined read-back for the legacy lines.
