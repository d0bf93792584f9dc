# Paragraph-numbering pipeline, modelled in Dafny

This project models the core of a document-rebuilding pipeline. A Word
document is converted to JSON paragraphs. The pipeline then does five things
with them:

- it works out list structure: which paragraphs are list items, their
  numbering format, their level and the list each belongs to;
- it converts one analysis format into another;
- it rebuilds the `document.xml` and `numbering.xml` parts of a new document;
- it writes a plain-text preview;
- it compares the text of a rebuilt document line by line with a reference
  text file.

Each Python module of the core becomes one Dafny module:

| Dafny module | file | Python source |
|---|---|---|
| `EnhancedListAnalyzer` | `enhanced.dfy` | `src/enhanced_list_analyzer.py` |
| `FlexibleListAnalyzer` | `flexible.dfy` | `src/flexible_list_analyzer.py` |
| `ListBlocks` | `listblocks.dfy` | block construction, format detection and content cleaning, shared by both analyzers |
| `ListRuns` | `listruns.dfy` | the "group consecutive list items" loop, shared by both analyzers |
| `XmlReconstructor` | `reconstructor.dfy` | `src/complete_xml_reconstructor.py`; `src/word_compatible_reconstructor.py` repeats the same functions line for line |
| `WordCompatibleReconstructor` | `word.dfy` | the parts of `src/word_compatible_reconstructor.py` that are its own |
| `TemplateBasedRebuilder` | `templates.dfy` | `src/template_based_rebuilder.py` |
| `FixedTemplateRebuilder` | `fixed.dfy` | `src/fixed_template_rebuilder.py` |
| `TextPreviewGenerator` | `preview.dfy` | `src/text_preview_generator.py` |
| `SimpleContentExtractor` | `simple.dfy` | `src/simple_content_extractor.py` |
| `TextComparisonValidator` | `comparison.dfy` | `src/text_comparison_validator.py` |
| `FlexibleConverters` | `converters.dfy` | `src/flexible_to_working_converter.py` and `src/flexible_to_simple_converter.py` (the same code) |

These helper modules have no Python counterpart:

- `Json` models a JSON field as absent, `null` or present. It provides
  Python's `.get(key, default)`, `or` and truthiness.
- `Paragraphs` holds the `ParagraphData` record the reconstructors and the
  preview share.
- `PyStr` gives `str.strip`, `str.lower`, `\s`, `\w`, string repetition and
  `int` to `str`.
- `Patterns` gives the regular expressions of the core as predicates on
  strings, anchored at the start as `re.match` is.
- `Seqs` gives filter, map, count and join, with their lemmas.
- `Xml` is an element tree of tags, attributes, children and text.
- `Wrappers` provides `Option` and `Result`.

Some choices shape the whole model:

- A Python exception the code does not catch is a `Failure` of a `Result`.
  Examples are a `KeyError` on a missing `index` and the `TypeError` of
  comparing `None` with `None`.
- A loop that appends to a list or updates a dict is a `method` with a
  `while` or `for` loop. Its contract ties the result to a function, and
  lemmas state what that function means.
- The analyzers update their block lists in place. That code works on an
  `array` of blocks. The simple extractor keeps its blocks in a field of a
  `class`.
- String-building code (the template and fixed rebuilders) produces exactly
  the strings of the f-strings.
- Element-tree code (the complete and Word-compatible reconstructors) builds
  an `Xml.Element` tree.

## Model

| member | source | states |
|---|---|---|
| `ListBlocks.DetectNumberingFormat` | src/enhanced_list_analyzer.py:169-179 | An empty token has no format. Otherwise the format is one of the five list formats, or none. |
| `ListBlocks.DetectIsFormatOfShape` | src/enhanced_list_analyzer.py:48-68 | The first-match scan over the format table equals a direct case split on the token's shape. Decimal comes first, then the upper letter, lower letter, upper roman and lower roman prefixes. |
| `ListBlocks.DecimalRowMeaning` | src/enhanced_list_analyzer.py:49-53 | A token matches some decimal pattern exactly when it starts with digits followed by a dot. |
| `ListBlocks.LetterRowMeaning` | src/enhanced_list_analyzer.py:54-61 | A token matches an upper-letter (lower-letter) pattern exactly when it starts with one upper-case (lower-case) letter and a dot. |
| `ListBlocks.UpperRomanRowMeaning` | src/enhanced_list_analyzer.py:62-64 | The upper-roman pattern holds exactly when the token starts with one of the ten alternatives I to X and a dot. |
| `ListBlocks.LowerRomanRowMeaning` | src/enhanced_list_analyzer.py:65-67 | The same for the lower-case alternatives i to x. |
| `ListBlocks.DetectDecimalExample` | src/enhanced_list_analyzer.py:49-51 | "1.01" is detected as decimal. |
| `ListBlocks.DetectUpperLetterExample` | src/enhanced_list_analyzer.py:54-63 | "I." is detected as an upper letter, not an upper roman numeral, because the letter row is scanned first. |
| `ListBlocks.UpperLetterShape` | src/enhanced_list_analyzer.py:54-56 | The shape split classifies "I." as an upper letter. |
| `ListBlocks.DetectUpperRomanExample` | src/enhanced_list_analyzer.py:62-64 | "II." is detected as an upper roman numeral. |
| `ListBlocks.UpperRomanShape` | src/enhanced_list_analyzer.py:62-64 | The shape split classifies "II." as an upper roman numeral. |
| `ListBlocks.DetectLowerLetterExample` | src/enhanced_list_analyzer.py:58-66 | "i." is detected as a lower letter, not a lower roman numeral. |
| `ListBlocks.LowerLetterShape` | src/enhanced_list_analyzer.py:58-60 | The shape split classifies "i." as a lower letter. |
| `ListBlocks.DetectLowerRomanExample` | src/enhanced_list_analyzer.py:65-67 | "ii." is detected as a lower roman numeral. |
| `ListBlocks.LowerRomanShape` | src/enhanced_list_analyzer.py:65-67 | The shape split classifies "ii." as a lower roman numeral. |
| `ListBlocks.CleanContent` | src/enhanced_list_analyzer.py:154-167 | The cleaned content never has surrounding whitespace. |
| `ListBlocks.CleanContentRemovesToken` | src/enhanced_list_analyzer.py:156-165 | When the text is the numbering token, then whitespace, then already stripped content, cleaning returns exactly that content. The token used is the list number, or the inferred number when the list number is empty. |
| `ListBlocks.CleanContentWithoutToken` | src/enhanced_list_analyzer.py:154-167 | When there is no token, or the text does not start with it, cleaning is just `strip`. |
| `ListBlocks.MakeBlock` | src/enhanced_list_analyzer.py:107-150 | A block is a list item exactly when the list number or the inferred number is truthy. Equivalently, it is a list item exactly when its numbering pattern is truthy. It keeps the text and the given level and has no list id. |
| `ListRuns.GroupsMaximal` | src/enhanced_list_analyzer.py:181-201 | The groups the loop returns partition the eligible positions into maximal runs. Each run is consecutive and starts at a group start, every later member continues its predecessor, and the position after its end is ineligible or does not continue it. The runs come in ascending order, and every eligible position lies in one. |
| `ListRuns.GroupsNumbered` | src/enhanced_list_analyzer.py:181-201 | Group g (0-based) holds exactly the eligible positions whose run is the (g+1)-th to start. No position is in two groups. |
| `ListRuns.NumberedDisjoint` | src/flexible_list_analyzer.py:334-337 | Runs numbered by their start are pairwise disjoint, so the id written into a block is that of its only group. |
| `EnhancedListAnalyzer.InferLevelFromNumbering` | src/enhanced_list_analyzer.py:235-241 | An inferred level lies between 0 and 5. A token with no whitespace in it (such as "1." or "A.") matches no level pattern, since every pattern needs `\s`. |
| `EnhancedListAnalyzer.LevelRowNeedsSpace` | src/enhanced_list_analyzer.py:71-84 | Every row of the level table matches only strings that contain a whitespace character. |
| `EnhancedListAnalyzer.InferLevelIsLevelOfShape` | src/enhanced_list_analyzer.py:71-84 | The first-match scan over the level table equals a direct case split on the token's shape, in the table's order. |
| `EnhancedListAnalyzer.InferLevelSingleRomanExample` | src/enhanced_list_analyzer.py:80-83 | "i. x" gets level 4: the lower-letter row comes before the roman row. |
| `EnhancedListAnalyzer.SingleLetterShape` | src/enhanced_list_analyzer.py:80-81 | Any lower-case letter, a dot and whitespace gives level 4. |
| `EnhancedListAnalyzer.InferLevelLongRomanExample` | src/enhanced_list_analyzer.py:82-83 | "ii. x" gets level 5. |
| `EnhancedListAnalyzer.TwoLetterShape` | src/enhanced_list_analyzer.py:82-83 | Two letters from {i, v, x}, a dot and whitespace give level 5. |
| `EnhancedListAnalyzer.EnhanceBlocks` | src/enhanced_list_analyzer.py:107-152 | There is one block per paragraph, in order. Each block is built from its own paragraph and keeps that paragraph's `level`. |
| `EnhancedListAnalyzer.EnhanceAllAt` | src/enhanced_list_analyzer.py:111-150 | Block i is the block of paragraph i. |
| `EnhancedListAnalyzer.GroupLists` | src/enhanced_list_analyzer.py:181-201 | The groups are exactly the maximal runs of consecutive list items (blocks whose `is_list_item` is true), in order. |
| `EnhancedListAnalyzer.BlockLevel` | src/enhanced_list_analyzer.py:221-231 | A level inferred from the token wins. Otherwise the block's own level is used, and a missing level gives 0. The result is never negative unless the block's own level was. |
| `EnhancedListAnalyzer.GroupLevel` | src/enhanced_list_analyzer.py:222-231 | The loop body for one block computes that block's level. |
| `EnhancedListAnalyzer.AnalyzeGroupLevels` | src/enhanced_list_analyzer.py:217-233 | There is one level per block of the group, in order, each the block's level. |
| `EnhancedListAnalyzer.AssignLevels` | src/enhanced_list_analyzer.py:203-215 | The assignment's keys are exactly the indices in some group. Each maps to its block's level. |
| `EnhancedListAnalyzer.AssignGroup` | src/enhanced_list_analyzer.py:212-213 | Adding a group adds exactly its indices and keeps every entry equal to its block's level. |
| `EnhancedListAnalyzer.FinalizeAnalysis` | src/enhanced_list_analyzer.py:243-261 | The blocks are updated in place to the finalized list. |
| `EnhancedListAnalyzer.FinalizeCopy` | src/enhanced_list_analyzer.py:243-261 | Finalizing a copy yields the finalized list. |
| `EnhancedListAnalyzer.FinalizedListIds` | src/enhanced_list_analyzer.py:246-261 | In the list `_finalize_analysis` leaves, every block of the g-th group returned by `_group_lists` has list id g+1. Blocks that are not list items are untouched. |
| `EnhancedListAnalyzer.ListIdsOfGroups` | src/enhanced_list_analyzer.py:249-254 | The counter the finalize loop keeps gives every position of group g the id g+1. |
| `EnhancedListAnalyzer.FinalBlockAt` | src/enhanced_list_analyzer.py:250-258 | A finalized list item carries its run's id. Its level is the assigned level when there is one, and its own level otherwise. |
| `EnhancedListAnalyzer.FinalizedLevels` | src/enhanced_list_analyzer.py:203-258 | With the assignment `_assign_levels` computes, every list item ends with its `BlockLevel`. |
| `EnhancedListAnalyzer.LevelsOfGroups` | src/enhanced_list_analyzer.py:207-258 | The same, for any covering set of runs and a matching assignment. |
| `EnhancedListAnalyzer.LevelAt` | src/enhanced_list_analyzer.py:212-258 | A list item in a run of a matching assignment ends with its `BlockLevel`. |
| `EnhancedListAnalyzer.AnalyzeParagraphs` | src/enhanced_list_analyzer.py:86-105 | The analysis has one block per paragraph. The returned groups are the runs of list items. Every block of group g has list id g+1 and level `BlockLevel`. A list item differs from the block built for its paragraph only in its list id and level. Every other block is exactly the block built for its paragraph. |
| `FlexibleListAnalyzer.AnalyzeNumberingRelationship` | src/flexible_list_analyzer.py:221-243 | The result is "new list" exactly when a token is empty. For two non-empty tokens it is "sublevel" exactly when they match one of the sublevel pattern pairs. For two non-empty tokens that match no sublevel pair, it is "sibling" exactly when the base patterns are equal and "parent" exactly when they differ. |
| `FlexibleListAnalyzer.BasePatternIsFormat` | src/flexible_list_analyzer.py:245-259 | For a non-empty token the base pattern names the same format `_detect_numbering_format` finds. It is "unknown" exactly when that detection finds none. |
| `FlexibleListAnalyzer.BaseFormatIsShape` | src/flexible_list_analyzer.py:245-259 | The base pattern follows the same shape split as format detection. |
| `FlexibleListAnalyzer.SomePairMatchesMeaning` | src/flexible_list_analyzer.py:261-284 | The pair loop returns true exactly when some pair's first pattern matches the previous token and its second matches the current one. |
| `FlexibleListAnalyzer.DecimalSublevelExample` | src/flexible_list_analyzer.py:266 | "1.02" is a sublevel of "1.01": the second matches `^\d+\.` and the first matches `^\d+\.\d+`, so the relationship of "1.02" to "1.01" is "sublevel". |
| `FlexibleListAnalyzer.LetterSublevelExample` | src/flexible_list_analyzer.py:271 | "1." is a sublevel of "A.", so the relationship of "1." to "A." is "sublevel". |
| `FlexibleListAnalyzer.InferLevelUsesLastEntry` | src/flexible_list_analyzer.py:197-219 | An empty stack gives level 0. Otherwise the most recent stack entry alone decides the level, since every relationship returns. With non-negative levels on the stack the result is non-negative. |
| `FlexibleListAnalyzer.FlexibleAllAt` | src/flexible_list_analyzer.py:108-139 | Block i is the block of paragraph i. |
| `FlexibleListAnalyzer.CreateFlexibleBlocks` | src/flexible_list_analyzer.py:104-141 | There is one block per paragraph, in order. |
| `FlexibleListAnalyzer.FlexibleBlocksShape` | src/flexible_list_analyzer.py:114-136 | A new block is a list item exactly when its numbering pattern is truthy. No block has a level or a list id yet. |
| `FlexibleListAnalyzer.AssignLevelsContextually` | src/flexible_list_analyzer.py:168-195 | The blocks are updated in place: each list item gets the level its context gives, and nothing else changes. |
| `FlexibleListAnalyzer.ContextAfter` | src/flexible_list_analyzer.py:177-195 | The context after block i is the context before it, updated by block i and its level. |
| `FlexibleListAnalyzer.ContextNonNegative` | src/flexible_list_analyzer.py:170-195 | The current level and every level on the numbering stack stay non-negative. |
| `FlexibleListAnalyzer.ContextLevelNonNegative` | src/flexible_list_analyzer.py:187-188 | Every level assigned is non-negative. |
| `FlexibleListAnalyzer.FirstOfRunIsZero` | src/flexible_list_analyzer.py:178-203 | The first list item of the document, or one right after a non-list paragraph, gets level 0, because a non-list paragraph clears the stack. |
| `FlexibleListAnalyzer.ContextLevelIsPairwise` | src/flexible_list_analyzer.py:168-219 | Each level is decided by the previous block alone. It is 0 if that block is not a list item, and otherwise the relationship to its token applied to its level. |
| `FlexibleListAnalyzer.ContextLevelAfterListItem` | src/flexible_list_analyzer.py:191-216 | The pairwise rule carries over from one list item to the next. |
| `FlexibleListAnalyzer.StackTopAfterListItem` | src/flexible_list_analyzer.py:191-192 | After a list item with a pattern, the top of the stack is that pattern with its level. |
| `FlexibleListAnalyzer.GroupListsContextually` | src/flexible_list_analyzer.py:302-339 | A block is eligible exactly when it is a list item with a level, and continues the open group exactly when it and the previous block have levels at most one apart. The groups are the maximal runs of eligible blocks that continue one another. The blocks are relabelled in place. |
| `FlexibleListAnalyzer.GroupsConsecutive` | src/flexible_list_analyzer.py:308-332 | Every group is a non-empty range of consecutive indices inside the list. |
| `FlexibleListAnalyzer.ContextualListIds` | src/flexible_list_analyzer.py:334-337 | Every block of group g gets list id g+1, and nothing else of it changes. |
| `FlexibleListAnalyzer.ContextualOthersUnchanged` | src/flexible_list_analyzer.py:309-337 | A block that is not an eligible list item is left exactly as it was. |
| `FlexibleListAnalyzer.GroupLevelsClose` | src/flexible_list_analyzer.py:311-316 | Inside a group, consecutive blocks are adjacent and their levels differ by at most one. |
| `FlexibleListAnalyzer.AssignListIds` | src/flexible_list_analyzer.py:334-337 | The id loop labels every block of group g with g+1 and leaves blocks outside the groups alone. |
| `FlexibleListAnalyzer.LabelGroup` | src/flexible_list_analyzer.py:336-337 | Labelling one group changes only its blocks' list ids. |
| `FlexibleListAnalyzer.LabeledKeepsFields` | src/flexible_list_analyzer.py:337 | Labelling changes nothing but the list id. |
| `FlexibleListAnalyzer.LabeledDisjoint` | src/flexible_list_analyzer.py:335-337 | With disjoint groups, a block's final id is that of its only group, or unchanged. |
| `FlexibleListAnalyzer.NotInAnyGroup` | src/flexible_list_analyzer.py:309-327 | An ineligible block is in no group. |
| `FlexibleListAnalyzer.LeveledBlocks` | src/flexible_list_analyzer.py:104-195 | After the level pass, which rewrites each block from the context built by the blocks before it, list items carry their pairwise non-negative level and others have none. A list item opening a run has level 0. |
| `FlexibleListAnalyzer.LeveledEligible` | src/flexible_list_analyzer.py:168-195 | After the level pass, the blocks that can be grouped are exactly the list items. |
| `FlexibleListAnalyzer.AnalyzeParagraphs` | src/flexible_list_analyzer.py:76-93 | There is one block per paragraph. The groups are the runs of list items whose consecutive levels are at most one apart. Each block is the leveled block with its group's id. |
| `Paragraphs.ParseParagraph` | src/complete_xml_reconstructor.py:66-81 | A JSON object becomes a `ParagraphData`. A missing list number reads as "", and a missing or `null` level, inferred number or cleaned content reads as none. |
| `XmlReconstructor.DetermineNumberingStyle` | src/complete_xml_reconstructor.py:83-109 | An empty token is decimal. Every result is one of decimal, upperLetter, lowerLetter and upperRoman. |
| `XmlReconstructor.StyleMeaning` | src/complete_xml_reconstructor.py:96-106 | The style is upperLetter (lowerLetter) exactly when the token is one upper-case (lower-case) letter and a dot, up to a final newline that `$` admits. It is upperRoman exactly when the token is a run of I, V and X and a dot, and is not a single letter. |
| `XmlReconstructor.LetterStyleExamples` | src/complete_xml_reconstructor.py:96-102 | "A." and "I." are upperLetter, "b." is lowerLetter, and "A.\n" is upperLetter too. |
| `XmlReconstructor.RomanStyleExample` | src/complete_xml_reconstructor.py:104-106 | "IV." is upperRoman. |
| `XmlReconstructor.FallThroughExamples` | src/complete_xml_reconstructor.py:108-109 | Lower-case roman "ii." and "(a)" fall through to decimal. |
| `XmlReconstructor.DecimalStyleExamples` | src/complete_xml_reconstructor.py:88-94 | "1.01" and "12." are decimal. |
| `XmlReconstructor.LevelToken` | src/complete_xml_reconstructor.py:505-507 | A paragraph contributes a token exactly when it has a level and numbering. The token is the non-empty list number, or else the inferred number. |
| `XmlReconstructor.LevelPatternsKeys` | src/complete_xml_reconstructor.py:501-513 | A level is in the table exactly when some paragraph with that level contributes a token. |
| `XmlReconstructor.LevelPatternsLastWins` | src/complete_xml_reconstructor.py:509-513 | A level's entry is built from the last paragraph that contributes to it. |
| `XmlReconstructor.LevelPatternsConfigs` | src/complete_xml_reconstructor.py:508-513 | Every entry has a non-empty format, a style determined from that format, and left alignment. |
| `XmlReconstructor.AnalyzeNumberingPatterns` | src/complete_xml_reconstructor.py:501-521 | There is one configuration per distinct level, in ascending level order, each the table's entry for that level. |
| `XmlReconstructor.InLevelOrder` | src/complete_xml_reconstructor.py:515-519 | The sorted loop lists the table's entries in ascending key order. |
| `XmlReconstructor.LevelElement` | src/complete_xml_reconstructor.py:125-148 | Level element i has `ilvl` i. Its format is the style, defaulting to decimal. Its text is the format, defaulting to "%(i+1).". It is left-justified, starts at 1, and is indented 720·i with a hanging indent of 360. |
| `XmlReconstructor.CreateLevel` | src/complete_xml_reconstructor.py:125-148 | The loop body builds that level element. |
| `XmlReconstructor.CreateNumberingXml` | src/complete_xml_reconstructor.py:111-157 | The numbering root declares the main namespace. It holds one abstract numbering with id 0, whose levels are the configurations in order, and one instance with id 1 referring to it. |
| `XmlReconstructor.ParagraphElementMeaning` | src/complete_xml_reconstructor.py:181-217 | A paragraph element always has properties. It has numbering properties exactly when the paragraph has numbering; these are `numId` 1 and the paragraph's level, with none read as 0. Its run text is the cleaned content when that is truthy, and the paragraph's text otherwise. |
| `XmlReconstructor.BodyFollowsInput` | src/complete_xml_reconstructor.py:177-182 | The body holds one element per non-blank paragraph, in order. |
| `XmlReconstructor.NamespaceAttrs` | src/complete_xml_reconstructor.py:164-166 | There is one `xmlns:` declaration per namespace, in order. |
| `XmlReconstructor.CreateDocumentXml` | src/complete_xml_reconstructor.py:159-219 | The document root declares the given namespaces. Its first child is the compatibility element, and its body is the non-blank paragraphs' elements in input order. |
| `XmlReconstructor.CreateCompleteDocumentXml` | src/complete_xml_reconstructor.py:38-49 | The complete reconstructor's root declares all ten prefixes of its namespace table in order, `w` first, with the same body. |
| `WordCompatibleReconstructor.CreateWordDocumentXml` | src/word_compatible_reconstructor.py:199-262 | The root declares exactly w, w14, w15, mc and r, in that order, with the same compatibility element and body. |
| `WordCompatibleReconstructor.ParseContentTypes` | src/word_compatible_reconstructor.py:60-80 | The content-type table is the dict built from the Default entries (keyed "*." + extension) and then the Override entries (keyed by part name). |
| `WordCompatibleReconstructor.AddEntries` | src/word_compatible_reconstructor.py:67-78 | Each loop adds its entries to the dict built so far. |
| `WordCompatibleReconstructor.KeyedEntry` | src/word_compatible_reconstructor.py:68-71 | An element yields at most one entry. It yields none when its key or content type is empty. |
| `WordCompatibleReconstructor.KeyedEntries` | src/word_compatible_reconstructor.py:67-78 | Every entry's key carries the prefix and something after it, and its content type is non-empty. |
| `WordCompatibleReconstructor.KeyedEntriesStep` | src/word_compatible_reconstructor.py:67-78 | The entries of a longer prefix of elements extend those of the shorter one. |
| `WordCompatibleReconstructor.DictOfIsLookupLast` | src/word_compatible_reconstructor.py:64-78 | Building a dict by assignment keeps, for each key, the value of its last entry. |
| `WordCompatibleReconstructor.DictOfSnoc` | src/word_compatible_reconstructor.py:71 | Assigning one more entry updates that one key. |
| `WordCompatibleReconstructor.ContentTypesMeaning` | src/word_compatible_reconstructor.py:60-80 | A key is in the table exactly when some entry has it. Its value is the last such entry's content type, which is never empty. |
| `WordCompatibleReconstructor.LookupLastValue` | src/word_compatible_reconstructor.py:64-78 | A found value comes from an entry with that key. |
| `WordCompatibleReconstructor.OverrideWins` | src/word_compatible_reconstructor.py:74-78 | An Override entry whose part name is not overridden again keeps its content type, even over a Default with the same key. |
| `WordCompatibleReconstructor.SuffixEntryWins` | src/word_compatible_reconstructor.py:64-78 | A later entry for a key overrides every earlier one. |
| `WordCompatibleReconstructor.SelectDocumentParts` | src/word_compatible_reconstructor.py:270-316 | Packaging fails exactly when a template entry names a directory (it is empty or ends in '/'), or when one file written to the working directory lies inside a directory named by another, counting `document.xml`, `numbering.xml` and the directories `word`, `word/theme` and `docProps` made up front. Otherwise there is one part per template entry, in the template's order, each with the content chosen for its name. |
| `WordCompatibleReconstructor.CopyEntry` | src/word_compatible_reconstructor.py:297-308 | Copying one entry fails exactly when making its directories meets a file already written, or when opening it meets a directory. On success the working directory gains that name, with the template's bytes for it. |
| `WordCompatibleReconstructor.ReadParts` | src/word_compatible_reconstructor.py:310-316 | Once every copy has succeeded, each template entry name, in template order, is read back from the working directory with the content chosen for its name. |
| `WordCompatibleReconstructor.PrefixStep` | src/word_compatible_reconstructor.py:297-308 | Copying entry i fails exactly when an earlier copy failed, or the entry is copied and names a directory, names a directory made up front, lies inside a file already written, or is a directory on the path of one. |
| `WordCompatibleReconstructor.PrefixFailsAll` | src/word_compatible_reconstructor.py:270-308 | A failure in the first i copies is a failure of the whole packaging, and a packaging failure shows up by the last copy. |
| `WordCompatibleReconstructor.InitialDirClash` | src/word_compatible_reconstructor.py:270-283 | A template file named like a directory made up front lies on the path of a file that is written, so it clashes. |
| `WordCompatibleReconstructor.PackagingFailsExamples` | src/word_compatible_reconstructor.py:270-308 | A file named `word`, a file `a` beside `a/b`, and an entry with the empty name each make packaging fail. |
| `WordCompatibleReconstructor.OrdinaryTemplatePackages` | src/word_compatible_reconstructor.py:270-308 | A template holding only `word/styles.xml` packages without failure. |
| `WordCompatibleReconstructor.CopiedVerbatim` | src/word_compatible_reconstructor.py:296-308 | A template entry other than `document.xml` and `numbering.xml`, not repeated later, is copied byte for byte. |
| `TemplateBasedRebuilder.NumberedRoundTrip` | src/template_based_rebuilder.py:23-35 | A numbered fragment parses back to its level and text when the level holds no quote. |
| `TemplateBasedRebuilder.SplitLevelRoundTrip` | src/template_based_rebuilder.py:29-33 | The level and the text are recovered from the middle of a numbered fragment. |
| `TemplateBasedRebuilder.RegularRoundTrip` | src/template_based_rebuilder.py:37-43 | A regular fragment parses back to its text. |
| `TemplateBasedRebuilder.HeadsDiffer` | src/template_based_rebuilder.py:25-40 | The two fragment kinds differ right after their shared opening (`<w:pPr>` against `<w:r>`). |
| `TemplateBasedRebuilder.FragmentsDistinct` | src/template_based_rebuilder.py:23-43 | A regular fragment never parses as numbered, and a numbered one never parses as regular. |
| `TemplateBasedRebuilder.DocumentRoundTrip` | src/template_based_rebuilder.py:66-71 | The document wrapper gives its body back. |
| `TemplateBasedRebuilder.LevelShown` | src/template_based_rebuilder.py:60 | The level written into the fragment never contains a quote. |
| `TemplateBasedRebuilder.FragmentMeaning` | src/template_based_rebuilder.py:54-64 | A paragraph with numbering gives a numbered fragment that parses back to its shown level and its content (cleaned content when the key is present). Any other paragraph gives a regular fragment of its stripped text. |
| `TemplateBasedRebuilder.BodyStep` | src/template_based_rebuilder.py:49-64 | Each paragraph appends its fragment if it has text, and nothing otherwise. |
| `TemplateBasedRebuilder.BodyPieces` | src/template_based_rebuilder.py:49-64 | The body is the concatenation of one fragment per non-blank paragraph, in order. |
| `TemplateBasedRebuilder.CreateDocumentXml` | src/template_based_rebuilder.py:45-71 | The document is the wrapper around the body of fragments. |
| `TemplateBasedRebuilder.TemplateLevelsShape` | src/template_based_rebuilder.py:73-122 | The numbering part defines five levels 0 to 4. Level i is indented 720·(i+1) with a hanging indent of 360, decimal for levels 0 and 1, and lowerLetter for levels 2 to 4. |
| `FixedTemplateRebuilder.UpdateCounters` | src/fixed_template_rebuilder.py:39-48 | The counter update bumps the level and then drops every deeper level. |
| `FixedTemplateRebuilder.UpdateCountersEffect` | src/fixed_template_rebuilder.py:39-48 | After an update the level's counter is one more than before (1 if new). No deeper level is left, and every shallower counter is unchanged, so exactly the levels up to the current one remain. |
| `FixedTemplateRebuilder.KeepBelowOrAll` | src/fixed_template_rebuilder.py:46-48 | Deleting over a snapshot of the keys ends with exactly the shallower levels kept. |
| `FixedTemplateRebuilder.KeepBelowOrStep` | src/fixed_template_rebuilder.py:47-48 | Each step of the deletion loop removes one deeper key. |
| `FixedTemplateRebuilder.CountersCountSince` | src/fixed_template_rebuilder.py:39-48 | After a sequence of numbered paragraphs, a level has a counter exactly when it occurred since the last shallower level. The counter is the number of those occurrences. |
| `FixedTemplateRebuilder.CountersAfterSnoc` | src/fixed_template_rebuilder.py:39-48 | One more numbered paragraph applies one update. |
| `FixedTemplateRebuilder.CountedLevelsStep` | src/fixed_template_rebuilder.py:26-37 | Only non-blank numbered paragraphs feed the counters. |
| `FixedTemplateRebuilder.CountersPrefixStep` | src/fixed_template_rebuilder.py:26-48 | The counters after one more paragraph are the counters before, updated by that paragraph. |
| `FixedTemplateRebuilder.StepFails` | src/fixed_template_rebuilder.py:37-48 | One paragraph raises exactly when it is non-blank, numbered and has a `null` level. The `TypeError` message names `'NoneType' and 'NoneType'` when the counter map is empty, and `'int' and 'NoneType'` otherwise. |
| `FixedTemplateRebuilder.CountersEmpty` | src/fixed_template_rebuilder.py:39-48 | The counter map is empty exactly when no level has been counted. |
| `FixedTemplateRebuilder.CrashMessageMeaning` | src/fixed_template_rebuilder.py:26-48 | A run stops at a counted paragraph with a `null` level. The first key the loop compares with `None` is `None` itself when no non-blank numbered paragraph came before, and an earlier integer level otherwise; the error message names those two types. |
| `FixedTemplateRebuilder.ReadAllStep` | src/fixed_template_rebuilder.py:26-67 | The loop over a longer prefix continues the loop over the shorter one, and stops at the first failure. |
| `FixedTemplateRebuilder.ReadAllFailureSticks` | src/fixed_template_rebuilder.py:26-67 | Once a paragraph raises, the whole call raises the same error. |
| `FixedTemplateRebuilder.ReadAllFailsStep` | src/fixed_template_rebuilder.py:26-67 | A prefix fails exactly when a shorter prefix failed or its last paragraph crashes. |
| `FixedTemplateRebuilder.ReadAllFails` | src/fixed_template_rebuilder.py:26-67 | The loop fails exactly when some paragraph crashes. |
| `FixedTemplateRebuilder.ReadAllSucceeds` | src/fixed_template_rebuilder.py:26-67 | A successful loop yields the body of one fragment per non-blank paragraph, with the counters of the numbered ones. |
| `FixedTemplateRebuilder.ParagraphStep` | src/fixed_template_rebuilder.py:27-67 | The loop body for one paragraph is one step of the loop. |
| `FixedTemplateRebuilder.ReadParagraphs` | src/fixed_template_rebuilder.py:23-67 | The paragraph loop computes the loop function. |
| `FixedTemplateRebuilder.CreateDocumentXml` | src/fixed_template_rebuilder.py:21-74 | The call fails exactly when a numbered, non-blank paragraph has a `null` level. Otherwise it returns the document around the template rebuilder's body: the same fragments, counters notwithstanding. |
| `FixedTemplateRebuilder.FixedLevelsShape` | src/fixed_template_rebuilder.py:76-133 | The numbering part defines six levels 0 to 5, indented 720·(i+1) with a hanging indent of 360, with formats decimal, decimal, lowerLetter, decimal, lowerLetter and lowerRoman. |
| `TextPreviewGenerator.FormatParagraphText` | src/text_preview_generator.py:50-78 | A paragraph formats to "" exactly when its text is blank. |
| `TextPreviewGenerator.NumberingIsTruthy` | src/text_preview_generator.py:57-61 | A numbered paragraph's token is never empty. It is the list number when that is non-empty, else the inferred number. |
| `TextPreviewGenerator.NumberedLayout` | src/text_preview_generator.py:59-74 | A numbered line is exactly 2·level spaces (none for a level below 1), then the token, one space and the content, which is the cleaned content when that is truthy and the text otherwise. When the token does not start with a space, the line starts with exactly 2·level spaces. |
| `TextPreviewGenerator.PlainIsText` | src/text_preview_generator.py:76-78 | A paragraph without numbering is shown as its text, unstripped. |
| `TextPreviewGenerator.PreviewLines` | src/text_preview_generator.py:90-95 | The lines are the formatted non-blank paragraphs, in order. |
| `TextPreviewGenerator.PreviewLinesMeaning` | src/text_preview_generator.py:90-95 | There is one non-empty line per non-blank paragraph. Line k comes from the k-th non-blank paragraph, and there are never more lines than paragraphs. |
| `TextPreviewGenerator.GeneratePreview` | src/text_preview_generator.py:80-99 | The preview text is the newline-joined lines of the parsed `all_paragraphs`. |
| `SimpleContentExtractor.LevelNumberOf` | src/simple_content_extractor.py:48-49 | A block has a level exactly when the paragraph's numbering object is present and has a level. |
| `SimpleContentExtractor.NumberingIdOf` | src/simple_content_extractor.py:48-50 | The same for the numbering id. |
| `SimpleContentExtractor.NewBlocksSnoc` | src/simple_content_extractor.py:52-58 | A kept paragraph is appended with index equal to the number of blocks before it. |
| `SimpleContentExtractor.CollectBlocks` | src/simple_content_extractor.py:43-58 | The loop builds one block per paragraph with text, numbered by position. |
| `SimpleContentExtractor.ClassifyBlocks` | src/simple_content_extractor.py:60-73 | Classification rewrites the block types in place and nothing else. |
| `SimpleContentExtractor.ClassifiedTypes` | src/simple_content_extractor.py:60-73 | From three blocks on, block 0 is the section number, block 1 the title, the last one closes the section and the rest are content. Below three the types are unchanged. Text, level, id and index never change. |
| `SimpleContentExtractor.ExtractedMeaning` | src/simple_content_extractor.py:32-76 | Block k comes from the k-th paragraph with text. It has index k, that paragraph's stripped non-empty text, its level and its id, and its positional type. |
| `SimpleContentExtractor.Extractor.constructor` | src/simple_content_extractor.py:29-30 | A new extractor has no blocks. |
| `SimpleContentExtractor.Extractor.ExtractContentBlocks` | src/simple_content_extractor.py:32-76 | The extraction returns the classified blocks and stores them in `blocks`. |
| `SimpleContentExtractor.Extractor.Info` | src/simple_content_extractor.py:78-103 | Nothing is saved when there are no blocks. Otherwise the total is the block count, the blocks with and without a level add up to it, and there are never more content blocks than blocks. |
| `SimpleContentExtractor.InfoAfterExtraction` | src/simple_content_extractor.py:43-103 | After extracting n non-blank paragraphs, nothing is saved exactly when n is 0. Otherwise the total is n, the content blocks are n - 3 when n >= 3 and n otherwise, the blocks with a level are the kept paragraphs that have one, and the rest are without a level. |
| `SimpleContentExtractor.ContentCountClassified` | src/simple_content_extractor.py:61-73 | From three blocks on, exactly n−3 blocks are content blocks. |
| `TextComparisonValidator.CollapseSpace` | src/text_comparison_validator.py:106 | Collapsing whitespace runs never lengthens the text, keeps it empty exactly when it was, and keeps whether it starts with whitespace. |
| `TextComparisonValidator.CollapseSpaceCollapsed` | src/text_comparison_validator.py:106-107 | After collapsing, every whitespace character is a single space and no two whitespace characters are adjacent. |
| `TextComparisonValidator.StripNormal` | src/text_comparison_validator.py:106-108 | Stripping collapsed text gives normal text: collapsed, with no whitespace at either end. |
| `TextComparisonValidator.NormalizeIsNormal` | src/text_comparison_validator.py:104-108 | Normalized text is normal: no double space and no newline or carriage return. |
| `TextComparisonValidator.CollapseSpaceFixed` | src/text_comparison_validator.py:106 | Collapsing already collapsed text changes nothing. |
| `TextComparisonValidator.NormalFixed` | src/text_comparison_validator.py:104-108 | Normalizing normal text changes nothing. |
| `TextComparisonValidator.NormalizeIdempotent` | src/text_comparison_validator.py:104-108 | Normalizing twice is normalizing once. |
| `TextComparisonValidator.StripPunctuation` | src/text_comparison_validator.py:112 | What is left is word characters and whitespace only. |
| `TextComparisonValidator.LowerNormal` | src/text_comparison_validator.py:114 | Lower-casing keeps text normal. |
| `TextComparisonValidator.NormalizeKeepsChars` | src/text_comparison_validator.py:112-114 | Normalizing introduces no character other than word characters and whitespace. |
| `TextComparisonValidator.CollapseKeepsChars` | src/text_comparison_validator.py:113 | The same for collapsing alone. |
| `TextComparisonValidator.ContentOnlyShape` | src/text_comparison_validator.py:110-114 | Content-only text is normal and holds only lower-case word characters and spaces. |
| `TextComparisonValidator.ContentCharsFixed` | src/text_comparison_validator.py:112-114 | Such text survives punctuation removal and lower-casing unchanged. |
| `TextComparisonValidator.ContentOnlyIdempotent` | src/text_comparison_validator.py:110-114 | Content-only cleaning twice is cleaning once. |
| `TextComparisonValidator.CleanTextForComparison` | src/text_comparison_validator.py:99-122 | The normalized strategy yields normal text. The content-only and fuzzy strategies yield normal lower-case word text. The exact strategy and any unknown one return the text unchanged. |
| `TextComparisonValidator.ReadTextFile` | src/text_comparison_validator.py:85-97 | The lines kept are the stripped non-blank lines, in order. |
| `TextComparisonValidator.TextLinesMeaning` | src/text_comparison_validator.py:90-97 | There is one line per non-blank input line. Line k is the k-th non-blank line stripped, and it is non-empty with no whitespace at either end. |
| `TextComparisonValidator.StripEnds` | src/text_comparison_validator.py:93-95 | A stripped non-blank line starts and ends with non-whitespace. |
| `TextComparisonValidator.RunsText` | src/text_comparison_validator.py:75-77 | The runs' text is their concatenation. |
| `TextComparisonValidator.ExtractTextFromWord` | src/text_comparison_validator.py:67-83 | There is one line per paragraph whose text, or failing that whose runs' text, is non-blank. |
| `TextComparisonValidator.WordLinesMeaning` | src/text_comparison_validator.py:69-83 | Line k comes from the k-th such paragraph. It is that paragraph's stripped text when that is non-blank, and its stripped runs otherwise. It is never empty. |
| `TextComparisonValidator.ValueBounds` | src/text_comparison_validator.py:201 | The percentage lies between 0 and 1. It is 1 exactly when there are lines and all of them match. |
| `TextComparisonValidator.ComparePair` | src/text_comparison_validator.py:139-172 | One pair is judged by the cascade and recorded with its differences. |
| `TextComparisonValidator.Tally` | src/text_comparison_validator.py:143-163 | Exactly one counter grows by one per verdict. |
| `TextComparisonValidator.PairStep` | src/text_comparison_validator.py:134-173 | A paired line appends its judged record. |
| `TextComparisonValidator.WordSurplusStep` | src/text_comparison_validator.py:176-186 | A surplus Word line is an "Extra line in Word document" mismatch. |
| `TextComparisonValidator.TextSurplusStep` | src/text_comparison_validator.py:188-198 | A surplus text line is an "Extra line in text file" mismatch. |
| `TextComparisonValidator.ComparePairs` | src/text_comparison_validator.py:132-173 | The paired loop records and counts the verdicts of the common prefix. |
| `TextComparisonValidator.CompareSurplus` | src/text_comparison_validator.py:175-198 | The surplus loops complete the records and mismatches for all lines. |
| `TextComparisonValidator.CompareTexts` | src/text_comparison_validator.py:124-210 | The result has one record per line of the longer list, the three counts of the verdicts, and the percentage (exact + partial) / total. |
| `TextComparisonValidator.SurplusNotMatched` | src/text_comparison_validator.py:175-198 | Surplus lines add no exact or partial match. |
| `TextComparisonValidator.TalliesAddUp` | src/text_comparison_validator.py:127-198 | Exact, partial and mismatch counts add up to the number of verdicts, one per line of the longer list. |
| `TextComparisonValidator.PercentageMeaning` | src/text_comparison_validator.py:200-201 | The match percentage lies between 0 and 1. It is 1 exactly when there is at least one line and no mismatch. |
| `TextComparisonValidator.DetailsMeaning` | src/text_comparison_validator.py:166-198 | There is one record and one verdict per line of the longer list. Record i has line number i+1, and a paired line's verdict is the cascade's judgement of the two texts. It is an exact match exactly when both lines exist and are equal, exactly when its verdict is exact. It carries the two lines, or "" for a missing one. A surplus line is a mismatch. |
| `TextComparisonValidator.JudgeCascade` | src/text_comparison_validator.py:142-164 | A pair is exact exactly when the texts are equal. It is a whitespace difference exactly when they differ but normalize equally. It is a punctuation difference exactly when they normalize differently but clean to the same content. A mismatch has different content. |
| `FlexibleConverters.ListNumberOf` | src/flexible_to_working_converter.py:26 | The list number is the numbering pattern when that is a non-empty string, and "" otherwise (missing, `null` or empty). |
| `FlexibleConverters.ConvertBlocks` | src/flexible_to_working_converter.py:22-34 | The loop fails exactly when some block has no `index` key. Otherwise there is one record per block, in order. |
| `FlexibleConverters.RecordMeaning` | src/flexible_to_working_converter.py:24-32 | Every record copies its block's index, level and inferred number and has no deduction method. Its list number is the block's numbering pattern when that is a non-empty string, else "", so it is a list item exactly when its block has a numbering pattern. Its text is the cleaned content whenever that key is present, even when it is `null`, and the original text only without the key. Its combined text is the original text. |
| `FlexibleConverters.SummaryMeaning` | src/flexible_to_working_converter.py:50-53 | The number of list items is the number of blocks with a pattern. The levels found are exactly the levels some block has. |

## Left out

- File and archive I/O is not modelled: JSON loading and dumping, temporary
  directories, zip reading and writing, and `os.path` handling. The models
  start from the parsed data and end with the content to be written.
- `WordToJsonConverter` is not part of this model. The extractor and the
  validator take the converter's paragraph list as input.
- The XML parser and serialiser are not modelled: `ET.fromstring` and its
  parse-error branch (which returns `{'error': …}`), and `ET.tostring`.
  Element trees are modelled as trees, and namespace prefixes are kept as
  literal `prefix:name` tags.
- `_parse_relationships` and the `template_relationships` it fills are not
  modelled: nothing in the core reads them.
- The complete reconstructor's constant package parts are not modelled: the
  styles, settings, web settings, font table and theme, the core and app
  properties (which carry the current time) and `create_word_document_xml`'s
  packaging of them. For the Word-compatible reconstructor only the choice of
  each part's content is modelled, not the zip compression.
- Printing, progress messages, `print_summary`,
  `print_validation_summary`, `generate_validation_report`, the analyzers'
  `_generate_report` and the rebuilders' `main` functions are not modelled.
- The analyzers' `_calculate_confidence` scores are not modelled. They are
  floating-point values that nothing else in the core reads.
- `_assign_parent_list_ids` is not modelled. Its body is `pass`.
- TextComparisonValidator.ValueBounds: the match percentage is a float
  division; it is modelled as the exact fraction (matched, total), and its
  rounding is not modelled.
- `\d`, `\w` and `str.lower` follow ASCII: `\d` is `0`–`9`, `\w` is
  letters, digits and `_`, and `str.lower` maps `A`–`Z` only. Their Unicode
  ranges are not modelled. Whitespace (`\s`, `str.strip`, `str.isspace`) is
  modelled exactly, with Python's full set of whitespace characters.
- `TextComparisonValidator.ReadTextFile` takes the file's lines as given;
  `readlines` splitting is not modelled.
- JSON values of an unexpected type are not modelled: a non-integer `level`,
  a non-string `text`, a `null` `all_paragraphs` or `paragraphs`, and
  non-string tokens. They make the Python code raise or behave differently.
  A missing key and a `null` value are modelled throughout.
- FixedTemplateRebuilder.CreateDocumentXml: a non-integer level that is
  not `null` would raise as well; only the `null` case is modelled.
- FlexibleConverters.ConvertBlocks: the passthrough keys `flexible_analysis`
  and `list_groups` of the converted file are copied unread and are not
  modelled.
- FlexibleListAnalyzer.AssignLevelsContextually: the level pass is stated
  for the analyzer's own relationship function. Its lemmas are stated for
  any relationship function, so they hold for it as a special case.
- The indentation stack of `ListContext` is always empty in the source. It
  is not modelled.
- WordCompatibleReconstructor.SelectDocumentParts: names are taken
  literally under the working directory. `os.path.join` and the file system
  would resolve `.`, `..`, repeated slashes and absolute names, so such
  names are not modelled. Which `OSError` is raised, and its message, are
  not modelled either: every failure is one `Failure` value.
