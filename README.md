# Trilium note graph and search front end, in Dafny

This project models the core of Trilium Notes, a hierarchical note-taking
application, and proves properties of the model.

- **The in-memory note graph ("becca").** Notes form a multi-parent DAG of parent/child links. Each note has owned labels and relations, and relations pointing at it. The model covers:
  - attribute inheritance through parents and `template`/`inherit` relations, with a recursion guard, so it terminates on cyclic template graphs;
  - the attribute caches, how they are filled and how they are invalidated;
  - the first-match accessors;
  - the note-path walks and their ranking;
  - the subtree walks.
- **The search query front end.**
  - parenthesis grouping of the token stream;
  - the recursive-descent expression parser, which records its diagnostics in the search context;
  - the `or`, `attribute exists` and `descendant of` expression evaluators, as set algebra over note ids.
- **The smaller rules of the API routes and services.**
  - the note-map and relation-map routes;
  - related notes;
  - the inherited-attribute ribbon;
  - hoisting;
  - ETAPI tokens and request patching;
  - calendar note titles;
  - script scheduling;
  - sync options;
  - log formatting;
  - ENEX import;
  - blob content;
  - icon usage.

Code that runs step by step is imperative Dafny: the caches, the walks, the parser and the counting loops. Most such methods are proved against a function that states what they compute. The attribute cache of `Becca` is specified instead by what a freshly filled cache holds and where each entry comes from (see "## Left out"). Side-effect-free code is written as functions and lemmas.

In these places the code does something easy to misread, and the model follows the code:
- `searchFromNote` with a missing note fails with a not-found error. `getNoteOrThrow` throws before the empty-result branch that follows it can run.
- `isValidAuthHeader` tests the token id for truthiness, so an empty id falls through to the legacy check against every stored token.
- `saveNote` sanitises the content twice, once in `extractContent` and once before saving.
- The `pad` of `log.ts` turns a negative number into `"0"` followed by that number, as the code does.
- `ordinal` in `date_notes.ts` uses JavaScript's `%`, which truncates toward zero. The model writes it out as a truncating remainder, so days below 20 take the same branch as in the source.
- `getExpression` passes `level++` to a nested group. The parser of `Parse` is a class whose `level` field the group and `not` turns pass on and then raise, and `parse` runs it with the nesting as written (`AsWritten`). The intended nesting (`Intended`: the group one level deeper, the enclosing level unchanged) is the corrected variant of the finding below; both are values of one `nesting` parameter, so the same parser proves both.

## Model

| member | source | states |
|---|---|---|
| NoteGraph.ValidateTypeName | src/becca/entities/bnote.ts:431-442 | accepted exactly when the type is absent, `label` or `relation` and the name does not start with `#` or `~`; an unknown type is refused with a message naming it, before the name is looked at |
| NoteGraph.FilterByTypeName | src/becca/entities/bnote.ts:343-354 | the four branches of `getAttributes` (type and name, type only, name only, neither) all keep exactly the resolved attributes that match the given parts, in order |
| NoteGraph.FilterOwned | src/becca/entities/bnote.ts:686-700 | the five branches of `getOwnedAttributes` keep exactly the owned attributes that match the given type, name and value, in order |
| NoteGraph.GetOwnedAttributes | src/becca/entities/bnote.ts:683-701 | fails exactly when the type/name check fails; otherwise holds exactly the owned attributes matching the filters |
| NoteGraph.GetOwnedAttribute | src/becca/entities/bnote.ts:708-712 | fails exactly when the type/name check fails; otherwise the first owned attribute that matches (none before it matches), and null exactly when no owned attribute matches |
| NoteGraph.FindAttribute | src/becca/entities/bnote.ts:598-602 | the first attribute with that name and type (none before it matches), or null when none matches |
| NoteGraph.AttributeValue | src/becca/entities/bnote.ts:609-613 | present exactly when some attribute of that type and name exists, and then the value of the first one |
| NoteGraph.IsLabelTruthy | src/becca/entities/bnote.ts:481-489 | true exactly when the first label of that name exists and its value is not `false`; so never true without such a label |
| NoteGraph.LabelValues | src/becca/entities/bnote.ts:638-640 | one value per label of that name, in the order of the label list |
| NoteGraph.FindAttributeAgreesWithHas | src/becca/entities/bnote.ts:444-450 | `getAttribute` finds something exactly when `hasAttribute` (with no value) is true |
| NoteGraph.InheritorsOfMembers | src/becca/entities/bnote.ts:1082-1090 | the inheriting notes listed are exactly the existing owners of `template`/`inherit` relations among the target relations |
| NoteGraph.InheritingNotes | src/becca/entities/bnote.ts:1079-1093 | starts with the note itself, then exactly the existing notes that use it through a `template` or `inherit` relation |
| NoteGraph.RelationsAreTypeFiltered | src/becca/entities/bnote.ts:662-664 | `getRelations()` is `getAttributes('relation')`: the relation-typed resolved attributes in order |
| NoteCache.Becca.constructor | src/becca/entities/bnote.ts:146-162 | a loaded store starts with every cache of every note empty, and the cache invariant holds |
| NoteCache.ClearedStoreValid | src/becca/entities/bnote.ts:146-162 | a store whose caches are all empty satisfies the cache invariant |
| NoteCache.Becca.ResolveAttributes | src/becca/entities/bnote.ts:363-416 | `__getAttributes(path)`: `[]` and no change for a note on the path; otherwise the note's cache is filled and returned, an already filled cache is returned unchanged, the result starts with the note's owned attributes in order, holds no attribute id twice and only stored attributes; no note on the path is touched; when the cache was empty every entry is owned, inheritable and in a parent's cache (never on `root`/`_hidden`), or a non-marker entry of the cache of a template target |
| NoteCache.Becca.FillAttributes | src/becca/entities/bnote.ts:368-416 | the miss branch: both caches of the note are filled with a deduplicated list that starts with the owned attributes and whose entries are all sourced as above; notes on the path are untouched |
| NoteCache.Becca.GatherAttributes | src/becca/entities/bnote.ts:369-393 | the list before deduplication starts with the owned attributes and every entry is owned, inherited from a parent's cache or from a template target's cache |
| NoteCache.ResolvedSourced | src/becca/entities/bnote.ts:369-404 | the owned attributes, the parents' inheritable ones and the template contributions, deduplicated, are all sourced entries |
| NoteCache.Becca.CollectInherited | src/becca/entities/bnote.ts:369-377 | the list starts with the owned attributes and holds only stored attributes; on `root` and `_hidden` it is exactly the owned attributes; everything after them is inheritable and in the attribute cache of one of the note's parents |
| NoteCache.Becca.CollectTemplates | src/becca/entities/bnote.ts:379-393 | every attribute brought in is stored, is not a template marker and is in the cache of a note that a `template`/`inherit` relation of the list points to; with no such relation nothing is brought in; the notes on the extended path are untouched |
| NoteCache.Becca.ResolveInheritable | src/becca/entities/bnote.ts:419-429 | `__getInheritableAttributes(path)`: `[]` for a note on the path, else exactly the inheritable part of the (now filled) attribute cache, every entry inheritable |
| NoteCache.Deduplicate | src/becca/entities/bnote.ts:395-404 | the `addedAttributeIds` loop keeps the first attribute of each id, in order (the reference `Inheritance.Dedupe`) |
| NoteCache.DedupePrefix | src/becca/entities/bnote.ts:395-404 | deduplicating a list that starts with distinct-id owned attributes keeps them as its prefix |
| NoteCache.InheritableOnly | src/becca/entities/bnote.ts:406-413 | the inheritable cache is the `isInheritable` subset of the attribute cache, in the same order |
| NoteCache.FillAttributeCache | src/becca/entities/bnote.ts:393-413 | storing a well-formed attribute cache together with its inheritable part keeps every cache of the store well formed |
| NoteCache.CachedAttributes | src/becca/entities/bnote.ts:363-429 | under the invariant, the two attribute caches of a note are filled together, and a filled one starts with the owned attributes, has distinct ids, and its inheritable cache is its inheritable part |
| NoteCache.Becca.GetAttributes | src/becca/entities/bnote.ts:335-355 | `getAttributes(type, name)` fails exactly when the type/name check fails (with its message, nothing changed); otherwise the cache is filled and the result is exactly its entries of that type and name |
| NoteCache.Becca.GetAttribute | src/becca/entities/bnote.ts:598-602 | the first resolved attribute of that type and name, which is a stored attribute, or null |
| NoteCache.Becca.IsLabelTruthy | src/becca/entities/bnote.ts:481-489 | `isLabelTruthy` on the resolved attributes, the cache being filled on the way |
| NoteCache.Becca.InvalidateThisCache | src/becca/entities/bnote.ts:812-818 | exactly this note's four caches are emptied; the invariant holds |
| NoteCache.ClearOne | src/becca/entities/bnote.ts:812-818 | emptying one note's caches keeps every other cache well formed |
| NoteCache.Becca.InvalidateSubTree | src/becca/entities/bnote.ts:820-844 | exactly the notes of the invalidation set are cleared (the note, then recursively its children and the users of it as a template, skipping notes on the path) and nothing else changes |
| NoteCache.Becca.InvalidateChildren | src/becca/entities/bnote.ts:829-831 | the children loop clears exactly the union of the children's invalidation sets |
| NoteCache.Becca.InvalidateTemplateUsers | src/becca/entities/bnote.ts:833-843 | the target-relations loop clears exactly the invalidation sets of the existing owners of `template`/`inherit` relations |
| NoteCache.InvalidationSetClosedModuloPath | src/becca/entities/bnote.ts:820-844 | whatever is cleared has its children and template users cleared too, unless they are on the path |
| NoteCache.InvalidationCoversReachable | src/becca/entities/bnote.ts:820-844 | from an empty path, every note reachable from the note through children and template/inherit users is cleared |
| NoteCache.Becca.GetAncestors | src/becca/entities/bnote.ts:1030-1053 | the cached or freshly computed ancestor list: distinct notes, each discovered through a parent link from the note or an earlier entry, and closed under parents; a filled cache is returned unchanged |
| NoteCache.Becca.AncestorsOfParent | src/becca/entities/bnote.ts:1035-1048 | one parent turn of `getAncestors`: the parent and all of its ancestors end up among the seen notes, the list stays duplicate-free and discovered through parent links, and the seen set only grows |
| NoteCache.MergeParent | src/becca/entities/bnote.ts:1035-1049 | one outer iteration adds the parent and then its ancestors not yet seen, keeping the list distinct and discovered upwards |
| NoteCache.ParentsAllSeen | src/becca/entities/bnote.ts:1030-1053 | once every parent has been merged, the note and its listed ancestors are closed under parents |
| NoteCache.FillAncestorCache | src/becca/entities/bnote.ts:1030-1053 | storing a well-formed ancestor list keeps the store valid and its structure unchanged |
| NoteCache.Becca.SortChildren | src/becca/entities/bnote.ts:761-773 | the children become a permutation of the old ones, sorted by the position of the joining branch (missing counts as 0), stable; nothing else changes |
| Sorting.SortCorrect | src/becca/entities/bnote.ts:761-773 | under a comparator that orders every pair transitively, the sorted list is ordered and is a permutation of the input |
| Sorting.SortStable | src/becca/entities/bnote.ts:761-773 | the sort is stable: elements tied with one another keep their input order |
| NoteCache.ChildLeTotal | src/becca/entities/bnote.ts:768-772 | the comparator by branch position is a total preorder, so the sort is well defined |
| NoteCache.ReorderChildrenValid | src/becca/entities/bnote.ts:761-773 | reordering a note's children keeps the store and its caches valid |
| Inheritance.DedupeFrom | src/becca/entities/bnote.ts:395-404 | the deduplicated list has distinct ids, takes only attributes of the input whose id was not already seen, and covers every such id |
| Inheritance.DedupeConcat | src/becca/entities/bnote.ts:397 | deduplicating `a + b` is deduplicating `a`, then `b` with `a`'s ids already seen |
| Inheritance.DedupeOfDistinct | src/becca/entities/bnote.ts:395-404 | a list with distinct ids, none seen yet, passes through unchanged |
| Inheritance.DedupeKeepsFirst | src/becca/entities/bnote.ts:398-403 | every kept attribute is the first one in the input carrying its id |
| Inheritance.Resolve | src/becca/entities/bnote.ts:363-405 | `__getAttributes(path)` with every cache empty: ids are distinct, and a note on the path (or a missing one) gives `[]`, which is how recursion through cyclic templates stops |
| Inheritance.InheritableOf | src/becca/entities/bnote.ts:419-429 | `__getInheritableAttributes(path)` holds exactly the inheritable attributes of the resolved list |
| Inheritance.ResolveLayout | src/becca/entities/bnote.ts:369-404 | the resolved list is the owned attributes in owned order, then the parents' inheritable attributes whose ids are new, then the template contributions whose ids are new |
| Inheritance.ResolveStartsWithOwned | src/becca/entities/bnote.ts:369 | the owned attributes open the resolved list, in their owned order |
| Inheritance.RootAndHiddenInheritNothing | src/becca/entities/bnote.ts:372-377 | for `root` and `_hidden` the resolved list is the owned attributes plus their template contributions, nothing from parents |
| Inheritance.ParentsInheritableSource | src/becca/entities/bnote.ts:373-375 | every parent-inherited attribute is inheritable and is resolved on some parent with the note added to the path |
| Inheritance.TemplateAttributesSource | src/becca/entities/bnote.ts:379-393 | every template-derived attribute is not a `template`/`workspacetemplate` label and is resolved on the existing target of a `template`/`inherit` relation |
| Inheritance.ResolveSources | src/becca/entities/bnote.ts:363-405 | soundness: every resolved attribute is owned, or inheritable and from a parent (never on `root`/`_hidden`), or a non-marker attribute of a template target |
| Inheritance.ParentsInheritableComplete | src/becca/entities/bnote.ts:373-375 | every inheritable attribute a parent resolves is gathered |
| Inheritance.TemplateAttributesComplete | src/becca/entities/bnote.ts:380-391 | every non-marker attribute of an existing template target is gathered |
| Inheritance.ResolveComplete | src/becca/entities/bnote.ts:363-405 | completeness on ids: every owned attribute, every inheritable parent attribute (except on `root`/`_hidden`) and every non-marker template attribute has its id in the resolved list |
| Inheritance.ResolveKeepsFirst | src/becca/entities/bnote.ts:395-404 | when ids clash, the attribute met first in owned, inherited, template order is the one kept |
| NotePaths.AllNotePaths | src/becca/entities/bnote.ts:1166-1182 | every note path of a note ends with the note itself |
| NotePaths.GetAllNotePaths | src/becca/entities/bnote.ts:1166-1182 | the loop version, gathering the parents' paths and pushing the id onto each, computes exactly the note paths |
| NotePaths.GatherParentPaths | src/becca/entities/bnote.ts:1171-1175 | the loop over the parents gathers every parent's note paths, in parent order |
| NotePaths.PushOntoEach | src/becca/entities/bnote.ts:1177-1179 | every gathered path gets the note id pushed at its end, and nothing else changes |
| NotePaths.AppendToEach | src/becca/entities/bnote.ts:1177-1179 | each path gets the note's id pushed, one result per path |
| NotePaths.AppendToEachMember | src/becca/entities/bnote.ts:1177-1179 | a path is in the result exactly when it ends with the id and its prefix is one of the input paths |
| NotePaths.ParentPathsSound | src/becca/entities/bnote.ts:1173-1175 | every gathered path is a path of some parent |
| NotePaths.ParentPathsComplete | src/becca/entities/bnote.ts:1173-1175 | every path of every parent is gathered |
| NotePaths.NotePathsCharacterised | src/becca/entities/bnote.ts:1166-1182 | the note paths are exactly the parent-link paths from `root` down to the note: `[["root"]]` for root, else a parent's path extended by the note |
| NotePaths.NotePathExtend | src/becca/entities/bnote.ts:1177-1179 | a path to a parent extended by the child is a path to the child |
| NotePaths.NotePathTruncate | src/becca/entities/bnote.ts:1177-1179 | a path to a non-root note is a path to one of its parents followed by the note |
| NotePaths.MakeRecord | src/becca/entities/bnote.ts:1187-1192 | a record is in the hoisted subtree exactly when the hoisted note is root or on the path, archived exactly when some note on it is archived, hidden exactly when `_hidden` is on it |
| NotePaths.MakeRecords | src/becca/entities/bnote.ts:1187-1192 | one record per path, in order |
| NotePaths.RecordLeIsLexicographic | src/becca/entities/bnote.ts:1194-1204 | the comparator orders in-hoisted first, then non-archived, then non-hidden, then shorter |
| NotePaths.RecordLeTotalPreorder | src/becca/entities/bnote.ts:1194-1204 | the comparator is total and transitive, so sorting by it is well defined |
| NotePaths.SortedNotePathRecordsCorrect | src/becca/entities/bnote.ts:1184-1212 | the ranked records are sorted by the comparator and are a permutation of the records of all note paths |
| NotePaths.BestNotePathIsBest | src/becca/entities/bnote.ts:1214-1216 | a best path exists exactly when some note path does; it is a note path and no note path ranks before it |
| NotePaths.HiddenViaParentsMeaning | src/becca/entities/bnote.ts:1237-1247 | the parents loop of `isHiddenCompletely` answers true exactly when every path through the parents contains `_hidden` |
| NotePaths.OwnPathsHidden | src/becca/entities/bnote.ts:1239-1245 | all of a parent's paths hold `_hidden` exactly when it is not root and is `_hidden` or hidden completely itself |
| NotePaths.HiddenCompletelyMeansAllPathsHidden | src/becca/entities/bnote.ts:1232-1250 | `isHiddenCompletely` holds exactly when every note path goes through `_hidden` before the note |
| NotePaths.DistanceToAncestor | src/becca/entities/bnote.ts:1095-1107 | the distance is capped at 999999 |
| NotePaths.MinOverParents | src/becca/entities/bnote.ts:1100-1104 | the running minimum never exceeds its start |
| NotePaths.MinOverParentsBound | src/becca/entities/bnote.ts:1102-1104 | the minimum is at most one more than each parent's distance |
| NotePaths.MinOverParentsAttained | src/becca/entities/bnote.ts:1102-1104 | the minimum is the start value or one more than some parent's distance |
| NotePaths.DistanceIsMinimal | src/becca/entities/bnote.ts:1095-1107 | no chain of parent links from the note to the ancestor is shorter than the distance |
| NotePaths.DistanceIsAttained | src/becca/entities/bnote.ts:1095-1107 | a distance below 999999 is the length of an actual chain of parent links |
| Subtree.SearchResultNotes | src/becca/entities/bnote.ts:891-907 | a note is listed exactly when the note is a search note with known results, the id is among them and it names a note of the store |
| Subtree.SubtreeWalk.constructor | src/becca/entities/bnote.ts:913-914 | the walk starts with no notes and no relationships |
| Subtree.SubtreeWalk.AddSubtreeNotesInner | src/becca/entities/bnote.ts:927-960 | `addSubtreeNotesInner(note, parent)`: the relationship to the parent is recorded whenever the note is admitted (even when already visited), a kept note ends up in the set, a rejected new note adds nothing, the first kept note opens the list, and what was there is kept |
| Subtree.SubtreeWalk.Visit | src/becca/entities/bnote.ts:946-959 | a note that passed every check is added (first when the set was empty) and then expanded |
| Subtree.SubtreeWalk.Expand | src/becca/entities/bnote.ts:950-958 | after a note is added, its children (or, for a search note with `resolveSearch`, its results) are walked, keeping the walk well formed and only growing it |
| Subtree.SubtreeWalk.AddEach | src/becca/entities/bnote.ts:916-958 | the loop over the children, or over a search note's results, keeps the walk well formed and only grows it |
| Subtree.RecordRelationship | src/becca/entities/bnote.ts:932-938 | recording `parent -> note` keeps the walk well formed |
| Subtree.AddNote | src/becca/entities/bnote.ts:946 | adding a kept note reached from a note of the set keeps the walk well formed |
| Subtree.GetSubtree | src/becca/entities/bnote.ts:909-968 | the notes are distinct, discovered from the note, exactly the kept notes reachable from it (none when it is itself rejected); the relationships are exactly the admitted parent/child pairs out of the listed notes, clone edges included |
| Subtree.SubtreeWithinClosed | src/becca/entities/bnote.ts:971-976 | `getSubtreeNoteIds` lies inside every set that contains the note and is closed under kept links |
| Subtree.TemplatedWalk.constructor | src/becca/entities/bnote.ts:861 | the walk starts empty |
| Subtree.TemplatedWalk.Inner | src/becca/entities/bnote.ts:863-884 | `inner(note)`: `_hidden` adds nothing, any other note ends up in the set (first when it was empty), and what was there is kept |
| Subtree.TemplatedWalk.InnerEach | src/becca/entities/bnote.ts:871-883 | the children loop and the template/inherit users loop walk every listed note but `_hidden` |
| Subtree.TemplatedWalk.ExpandTemplated | src/becca/entities/bnote.ts:871-883 | after a note is added, its children and then the notes using it as a template are walked, and the note counts as finished |
| Subtree.TemplatedWalk.InnerStep | src/becca/entities/bnote.ts:871-881 | one turn of either loop: the listed note is walked, and everything found before stays found |
| Subtree.AddTemplated | src/becca/entities/bnote.ts:869 | adding a reached note keeps the walk well formed |
| Subtree.TemplatedInside | src/becca/entities/bnote.ts:871-883 | children and template users of a stored note are stored notes |
| Subtree.TemplatedClosed | src/becca/entities/bnote.ts:863-884 | a finished walk is closed under children and template users |
| Subtree.GetSubtreeNotesIncludingTemplated | src/becca/entities/bnote.ts:860-889 | the notes reached from the note through children and template/inherit users, each once, never `_hidden` (so nothing for `_hidden` itself); exactly the reachable set, closed under those links |
| HandleParens.FirstOpen | src/services/search/services/handle_parens.ts:12 | the index of the first top-level `(` token, with none before it, or -1 exactly when there is none |
| HandleParens.MatchingRight | src/services/search/services/handle_parens.ts:18-36 | the scan from the `(` keeps the level positive until it stops at the `)` that brings it back to zero, or runs to the end when there is none |
| HandleParens.UnmatchedOpen | src/services/search/services/handle_parens.ts:38-40 | a `(` the scan never closes means the token list is unbalanced |
| HandleParens.MatchedInner | src/services/search/services/handle_parens.ts:44 | the tokens strictly between a `(` and its matching `)` are balanced |
| HandleParens.MatchedSegment | src/services/search/services/handle_parens.ts:42-46 | the whole matched segment is balanced |
| HandleParens.DepthWithoutOpen | src/services/search/services/handle_parens.ts:14-15 | a list with no top-level `(` leaves nothing open, so returning it unchanged is right |
| HandleParens.ReplaceKeepsDepth | src/services/search/services/handle_parens.ts:42-46 | replacing a balanced segment by a group keeps the balance |
| HandleParens.ReplaceKeepsTexts | src/services/search/services/handle_parens.ts:42-46 | replacing `(` inner `)` by a group of the same inner texts keeps the flattened texts (parentheses written back) |
| HandleParens.ReplaceDropsOpen | src/services/search/services/handle_parens.ts:42-46 | each replacement removes a top-level `(`, which is why the loop terminates |
| HandleParens.ReplaceKeepsGrouped | src/services/search/services/handle_parens.ts:44 | a replacement whose group holds no `(` keeps every group free of `(` |
| HandleParens.ReplaceStep | src/services/search/services/handle_parens.ts:42-46 | one round keeps the balance and the flattened texts, strictly shrinks the list and the number of `(`, and keeps groups grouped |
| HandleParens.HandleParens | src/services/search/services/handle_parens.ts:6-48 | fails with "Did not find matching right parenthesis." exactly when some `(` is never closed; otherwise the result flattens back to the input, has no `(` left outside groups, and an input with no `(` (including the empty one) comes back unchanged; a stray `)` is kept |
| SearchContexts.SearchContext.constructor | src/services/search/search_context.ts:26-53 | the five flags are coerced to booleans; the ancestor defaults to the hoisted note exactly when none is given and `ignoreHoistedNote` is false; no highlighted tokens, an empty query, no error |
| SearchContexts.RecordError | src/services/search/search_context.ts:55-60 | an existing error is kept; without one, the new message is recorded |
| SearchContexts.SearchContext.AddError | src/services/search/search_context.ts:55-60 | `addError` changes the error as `RecordError` says and nothing else |
| SearchContexts.FirstMessage | src/services/search/search_context.ts:55-60 | the first non-empty message, or none when every message is empty |
| SearchContexts.FirstErrorWins | src/services/search/search_context.ts:55-60 | once there is an error, later `addError` calls change nothing; from none, the error becomes the first non-empty message |
| SearchContexts.HasErrorAfterCalls | src/services/search/search_context.ts:62-68 | on a fresh context `hasError` is true exactly when some message was non-empty, and `getError` is the first such message |
| SearchContexts.SearchContext.Highlight | src/services/search/search_context.ts:20 | highlighted tokens are appended in order |
| SearchExpressions.Present | src/services/search/expressions/or.ts:12 | the present sub-expressions, exactly those given, none added |
| SearchExpressions.OrOfMeaning | src/services/search/expressions/or.ts:11-23 | no present expression gives `TrueExp`, one gives itself, several give an expression meaning the union of their results |
| SearchExpressions.ExecuteOr | src/services/search/expressions/or.ts:31-39 | the loop merges exactly what each sub-expression yields on the same input |
| SearchExpressions.RunAllMembers | src/services/search/expressions/or.ts:31-39 | a note is in the merged result exactly when some sub-expression yields it |
| SearchExpressions.RunWithinInput | src/services/search/expressions/or.ts:31-39 | every expression yields a subset of its input |
| SearchExpressions.RunAllWithinInput | src/services/search/expressions/or.ts:31-39 | the union of sub-results is within the input |
| SearchExpressions.Execute | src/services/search/expressions/or.ts:31 | dispatching `execute` on an expression computes its meaning |
| SearchExpressions.AttributeOwnersInStore | src/services/search/expressions/attribute_exists.ts:27-29 | the attributes found by type and name (or prefix) belong to notes of the store |
| SearchExpressions.ContributionOf | src/services/search/expressions/attribute_exists.ts:33-45 | one attribute adds its owner's templated subtree when inheritable, else the inheriting notes when the owner is used as template, else the owner |
| SearchExpressions.CollectedAdd | src/services/search/expressions/attribute_exists.ts:33-45 | the collected notes of a set of attributes grow by each attribute's contribution |
| SearchExpressions.ExecuteAttributeExists | src/services/search/expressions/attribute_exists.ts:26-48 | the result is the input intersected with the contributions of every matching attribute, so within the input |
| SearchExpressions.TemplateLabelMatchesOwners | src/services/search/expressions/attribute_exists.ts:22 | a `template`/`workspacetemplate` label expression matches only the input notes owning such a label |
| SearchExpressions.ExecuteDescendantOf | src/services/search/expressions/descendant_of.ts:18-29 | the input intersected with the default subtrees of everything the sub-expression matches among all notes |
| SearchExpressions.SubtreesAdd | src/services/search/expressions/descendant_of.ts:24-26 | the joined subtrees grow by each matched note's subtree |
| SearchExpressions.SubtreeSet | src/services/search/expressions/descendant_of.ts:25 | the notes `getSubtree()` gives with the default options, as a set |
| SearchExpressions.DefaultKept | src/becca/entities/bnote.ts:909-930 | with the default options a note is kept exactly when it is not `_hidden` |
| SearchExpressions.MatchedNoteKept | src/services/search/expressions/descendant_of.ts:18-29 | a matched note in the input is in the result unless it is `_hidden` |
| Parse.TextAt | src/services/search/services/parse.ts:152-161 | reading `tokens[k].token` throws exactly past the end of the list, else gives that token's text |
| Parse.Context | src/services/search/services/parse.ts:78-84 | the quoted excerpt of the query around a token always starts and ends with `"` |
| Parse.AggregateMeaning | src/services/search/services/parse.ts:356-366 | no expression gives `TrueExp`, one is returned as is, two or more become `OrExp` under `or` and `AndExp` otherwise, also with no operator written |
| Parse.AggregateNotOrdering | src/services/search/services/parse.ts:356-366 | combining expressions that are not orderings gives no ordering |
| Parse.PresentOfWrap | src/services/search/services/parse.ts:356-366 | the expressions collected are all present, so `of` drops none of them |
| Parse.OperandOf | src/services/search/services/parse.ts:86-137 | reading past the end or a group throws; an unquoted `#…`, `~…` or `note` records "compare with constant only" and gives null without moving; a quoted token or a word other than a date keyword is the operand itself; a date keyword moves at most two tokens on; highlighted tokens are untouched and an earlier error is kept |
| Parse.ExpressionParser.ResolveConstantOperand | src/services/search/services/parse.ts:86-137 | the method's result, cursor and diagnostics are those of `OperandOf` |
| Parse.LabelOf | src/services/search/services/parse.ts:258-288 | the label name is highlighted first; without a following operator the label only has to exist (`AttributeExistsExp`, fuzzy as the context says); with one, any result is a comparison on that label whose operator is the written one (`=` read as `*=*` under fuzzy search) and has a comparator |
| Parse.ExpressionParser.ParseLabel | src/services/search/services/parse.ts:258-288 | the method's result, cursor and diagnostics are those of `LabelOf` |
| Parse.ComparedLabelOf | src/services/search/services/parse.ts:266-284 | any result compares the label with the written operator (`=` read as `*=*` under fuzzy search) for which a comparator exists; diagnostics only grow |
| Parse.ExpressionParser.ParseComparedLabel | src/services/search/services/parse.ts:266-284 | the method's result, cursor and diagnostics are those of `ComparedLabelOf` |
| Parse.ComparisonOf | src/services/search/services/parse.ts:272-284 | the resolved operand is highlighted and the cursor stays; the result is absent exactly when no comparator exists for the effective operator (then an error is recorded), and otherwise is the label comparison with that operator |
| Parse.ExpressionParser.Compare | src/services/search/services/parse.ts:272-284 | the method's result and diagnostics are those of `ComparisonOf` |
| Parse.RelationOf | src/services/search/services/parse.ts:290-308 | `~rel.` gives a condition on the target (`RelationWhereExp`); `~rel` followed by an operator records "Relation can be compared only with property…" and gives null; otherwise the relation only has to exist; the name is highlighted in every case |
| Parse.ExpressionParser.ParseRelation | src/services/search/services/parse.ts:290-308 | the method's result, cursor and diagnostics are those of `RelationOf` |
| Parse.RelativeOf | src/services/search/services/parse.ts:164-186 | `parents`, `children` and `ancestors` give `ChildOfExp`, `ParentOfExp` and `DescendantOfExp` of the rest of the path |
| Parse.ExpressionParser.ParseRelative | src/services/search/services/parse.ts:164-186 | the method's result, cursor and diagnostics are those of `RelativeOf` |
| Parse.ContentOf | src/services/search/services/parse.ts:147-162 | a result searches the content (raw for `rawcontent`, never flat text) with the operator token that follows; a non-operator there records "After content expected operator…" and gives nothing |
| Parse.ExpressionParser.ParseContent | src/services/search/services/parse.ts:147-162 | the method's result, cursor and diagnostics are those of `ContentOf` |
| Parse.AttributePathOf | src/services/search/services/parse.ts:188-222 | `labels.`/`relations.` give a label or relation expression; `text` not followed by `*=*` records its error and gives nothing, as does a missing `.` after `labels`/`relations`; `text *=*` gives an `OrExp`; never an ordering |
| Parse.ExpressionParser.ParseAttributePath | src/services/search/services/parse.ts:188-222 | the method's result, cursor and diagnostics are those of `AttributePathOf` |
| Parse.AttributeTargetOf | src/services/search/services/parse.ts:194-221 | the word after `labels.` is parsed as a label and after `relations.` as a relation; after `text *=*` the title and the content are both searched for it |
| Parse.ExpressionParser.ParseAttributeTarget | src/services/search/services/parse.ts:194-221 | the method's result, cursor and diagnostics are those of `AttributeTargetOf` |
| Parse.PropertyComparisonOf | src/services/search/services/parse.ts:224-237 | a result compares that property, with the token after it as operator, to a non-empty constant; highlighted tokens are untouched |
| Parse.ExpressionParser.ParsePropertyComparison | src/services/search/services/parse.ts:224-237 | the method's result, cursor and diagnostics are those of `PropertyComparisonOf` |
| Parse.NotePropertyOf | src/services/search/services/parse.ts:139-240 | a missing `.` records "Expected \".\" to separate field path" and gives nothing; after it, `parents`/`children`/`ancestors` give the matching tree expression and `content`/`rawcontent` a content search; never an ordering |
| Parse.ExpressionParser.ParseNoteProperty | src/services/search/services/parse.ts:139-240 | the method's result, cursor and diagnostics are those of `NotePropertyOf` |
| Parse.PropertyOf | src/services/search/services/parse.ts:147-239 | the field after the `.`: `parents`/`children`/`ancestors` give the matching tree expression and `content`/`rawcontent` a content search; never an ordering; reading past the end throws |
| Parse.ExpressionParser.ParseProperty | src/services/search/services/parse.ts:147-239 | the method's result, cursor and diagnostics are those of `PropertyOf` |
| Parse.StepOf | src/services/search/services/parse.ts:147-186 | `content`/`rawcontent` give a content search (raw or not) and `parents`/`children`/`ancestors` give `ChildOfExp`/`ParentOfExp`/`DescendantOfExp`; never an ordering |
| Parse.ExpressionParser.ParseStep | src/services/search/services/parse.ts:147-186 | the method's result, cursor and diagnostics are those of `StepOf` |
| Parse.FieldOf | src/services/search/services/parse.ts:188-239 | an unknown field that is not `labels`/`relations`/`text` records "Unrecognized note property…" and gives nothing; never an ordering |
| Parse.ExpressionParser.ParseField | src/services/search/services/parse.ts:188-239 | the method's result, cursor and diagnostics are those of `FieldOf` |
| Parse.ReferenceOf | src/services/search/services/parse.ts:253 | a result is the label or relation expression for that name |
| Parse.ExpressionParser.ParseReference | src/services/search/services/parse.ts:253 | the method's result, cursor and diagnostics are those of `ReferenceOf` |
| Parse.AttributeOf | src/services/search/services/parse.ts:242-256 | `#name` parses a label and `~name` a relation on the name without its sigil; with `!` after the sigil the expression is wrapped in `NotExp` |
| Parse.ExpressionParser.ParseAttribute | src/services/search/services/parse.ts:242-256 | the method's result, cursor and diagnostics are those of `AttributeOf` |
| Parse.PathOf | src/services/search/services/parse.ts:319-328 | a property path consumes at least two tokens, extends the path it was given, and stops before a token that is not `.`; reading past the end throws |
| Parse.ExpressionParser.ParsePropertyPath | src/services/search/services/parse.ts:319-328 | the method's result and cursor are those of `PathOf` |
| Parse.EntryOf | src/services/search/services/parse.ts:319-345 | one entry appends exactly one definition with a non-empty path and direction `asc` or `desc` to those given; highlighted tokens are untouched and an earlier error is kept; a throw is the `TypeError` |
| Parse.ExpressionParser.ParseOrderEntry | src/services/search/services/parse.ts:319-345 | the method's result, cursor and diagnostics are those of `EntryOf` |
| Parse.EntriesOf | src/services/search/services/parse.ts:317-347 | the entries extend those given, each with a non-empty path and direction `asc` or `desc`, and stop at a token that is not `,`; highlighted tokens are untouched and an earlier error is kept; a throw is the `TypeError` |
| Parse.ExpressionParser.ParseOrderDefinitions | src/services/search/services/parse.ts:317-347 | the method's result, cursor and diagnostics are those of `EntriesOf` |
| Parse.OrderByAndLimitOf | src/services/search/services/parse.ts:310-354 | an ordering with no sub-expression yet and well-formed entries; no entries unless the token is `orderby`; a limit only when the token after the entries is `limit` |
| Parse.ExpressionParser.ParseOrderByAndLimit | src/services/search/services/parse.ts:310-354 | the method's result, cursor and diagnostics are those of `OrderByAndLimitOf` |
| Parse.LimitAfter | src/services/search/services/parse.ts:349-353 | reading `limit`'s number throws exactly when `limit` is the last token; otherwise the ordering keeps the given entries, has a limit only after `limit`, and nothing else moves |
| Parse.ExpressionParser.Limit | src/services/search/services/parse.ts:349-353 | the method's result, cursor and diagnostics are those of `LimitAfter` |
| Parse.OperatorOf | src/services/search/services/parse.ts:426-433 | the first `and`/`or` of a level is kept; a different one later records "Mixed usage of AND/OR…"; the same one again changes nothing; nothing else changes |
| Parse.ExpressionParser.Operator | src/services/search/services/parse.ts:426-433 | the parser's new state is `OperatorOf` of the old one |
| Parse.WordOf | src/services/search/services/parse.ts:426-439 | a word other than `and`/`or` records "Misplaced or incomplete expression" for a comparison operator and "Unrecognized expression" otherwise, and changes nothing else |
| Parse.FinishTurn | src/services/search/services/parse.ts:441-443 | after a turn that proceeds with two or more expressions, an operator is set; an operator already set is kept |
| Parse.AttributeTurnOf | src/services/search/services/parse.ts:383-388 | a `#…`/`~…` token appends its (possibly negated) attribute expression, or nothing; operator and level are untouched |
| Parse.ExpressionParser.AttributeTurn | src/services/search/services/parse.ts:383-388 | the step and the new state are those of `AttributeTurnOf` |
| Parse.OrderByTurnOf | src/services/search/services/parse.ts:389-403 | below the top level `orderby`/`limit` records "orderBy can appear only on the top expression level" and changes nothing else; at the top level the loop ends with the ordering over the level's combined expressions, or the `TypeError` |
| Parse.ExpressionParser.OrderByTurn | src/services/search/services/parse.ts:389-403 | the step and the new state are those of `OrderByTurnOf` |
| Parse.NoteTurnOf | src/services/search/services/parse.ts:417-425 | `note` appends its property expression, never an ordering; none ends the level with nothing |
| Parse.ExpressionParser.NoteTurn | src/services/search/services/parse.ts:417-425 | the step and the new state are those of `NoteTurnOf` |
| Parse.GroupTurnOf | src/services/search/services/parse.ts:369-375 | a group is parsed at `GroupLevel` and leaves the enclosing level at `LevelAfterGroup` (as written: parsed at the same level, which then goes up by one); its expression, if any, is appended; when groups are parsed below the top level, no ordering is collected |
| Parse.ExpressionParser.GroupTurn | src/services/search/services/parse.ts:369-375 | the step and the new state, with the `level` field updated, are those of `GroupTurnOf` |
| Parse.ExpressionParser.Nested | src/services/search/services/parse.ts:370 | the group's result and diagnostics are those of `ExpressionOf` over its tokens at the level given |
| Parse.NotTurnOf | src/services/search/services/parse.ts:404-416 | `not` at the last token throws; followed by a plain token it records "not keyword should be followed by sub-expression…" and skips it; a group's expression is appended negated, the level moving as for a group; a group yielding nothing ends the level with nothing |
| Parse.ExpressionParser.NotTurn | src/services/search/services/parse.ts:404-416 | the step and the new state, with the `level` field updated, are those of `NotTurnOf` |
| Parse.TurnOf | src/services/search/services/parse.ts:368-444 | one loop turn keeps the operator among none/`and`/`or`, sets one once two expressions are collected, never lowers the level (keeps it with the intended nesting), and returns an expression only as an ordering where `orderby` is allowed |
| Parse.ExpressionParser.Turn | src/services/search/services/parse.ts:368-444 | the step and the new state are those of `TurnOf` |
| Parse.LoopOf | src/services/search/services/parse.ts:368-446 | the loop yields the level's combined expressions, or an ordering over them where `orderby` is allowed; a throw is the `TypeError`; diagnostics only grow |
| Parse.ExpressionOf | src/services/search/services/parse.ts:68-447 | nothing for no tokens; otherwise the level's expressions combined by its operator, or, started at level 0, an ordering over that combination; a parser started below the top level never yields an ordering |
| Parse.ExpressionParser.GetExpression | src/services/search/services/parse.ts:68-447 | the method's result and final state are those of `ExpressionOf` at the parser's starting level, under the parser's nesting |
| Parse.IntendedOrdersOnlyAtTop | src/services/search/services/parse.ts:389-393 | with the intended nesting an ordering comes only from level 0 and never orders another ordering |
| Parse.LabelAReference | src/services/search/services/parse.ts:242-253 | `#a` is a label reference to `a`, not negated |
| Parse.ExpressionStartsLoop | src/services/search/services/parse.ts:68-368 | a parser over tokens starts its loop at the first token with nothing collected and no operator |
| Parse.LoopAfterTurn | src/services/search/services/parse.ts:368-444 | a turn that does not return is followed by the loop from the next token |
| Parse.LoopEndsWithOne | src/services/search/services/parse.ts:444-446 | past the last token one collected expression is the result |
| Parse.LabelATurn | src/services/search/services/parse.ts:383-388 | `#a` with no operator after it collects "label `a` exists" and highlights `a` |
| Parse.OrderByBelowTop | src/services/search/services/parse.ts:389-393 | below the top level `orderby` records its error and is skipped, nothing else changes |
| Parse.TitleUnrecognized | src/services/search/services/parse.ts:437-439 | `title` on its own records "Unrecognized expression \"title\"" and the loop goes on |
| Parse.OrderByTitleAtTop | src/services/search/services/parse.ts:389-403 | at the top level `orderby title` returns the ordering by title over the collected expression, with the path's validation error |
| Parse.OrderByTitleBelowTop | src/services/search/services/parse.ts:389-393 | below the top level `orderby title` leaves the collected expression as the result, with the "orderBy can appear only on the top expression level" error recorded |
| Parse.LabelAlone | src/services/search/services/parse.ts:68-447 | `#a` alone parses to "label `a` exists" at any level |
| Parse.LabelOrderedAtTop | src/services/search/services/parse.ts:68-447 | `#a orderby title` at level 0 is the label ordered by title |
| Parse.LabelOrderedBelowTop | src/services/search/services/parse.ts:68-447 | `#a orderby title` below level 0 is the label alone, with the `orderBy` error recorded |
| Parse.OneGroup | src/services/search/services/parse.ts:369-375 | a query made of one group yields the group's expression, and the top level afterwards is `LevelAfterGroup` |
| Parse.GroupOfLabelFirst | src/services/search/services/parse.ts:369-375 | a leading `(#a)` collects the label at the top and moves the top level to `LevelAfterGroup` |
| Parse.AsWrittenRefusesOrderByAfterGroup | src/services/search/services/parse.ts:370-393 | as written, `(#a) orderby title` yields the label without an ordering and records "orderBy can appear only on the top expression level" |
| Parse.AsWrittenAcceptsOrderByInGroup | src/services/search/services/parse.ts:370-402 | as written, `(#a orderby title)` yields the label ordered by title |
| Parse.IntendedAcceptsOrderByAfterGroup | src/services/search/services/parse.ts:370-402 | with the intended nesting, `(#a) orderby title` yields the label ordered by title |
| Parse.IntendedRefusesOrderByInGroup | src/services/search/services/parse.ts:370-393 | with the intended nesting, `(#a orderby title)` yields the label alone and records the `orderBy` error |
| Parse.GetAncestorExp | src/services/search/services/parse.ts:487-495 | a non-root ancestor gives `AncestorExp`; otherwise `NotExp(IsHiddenExp)` exactly when hidden notes are not included |
| Parse.Words | src/services/search/services/parse.ts:28 | one searched word per full-text token |
| Parse.FulltextOf | src/services/search/services/parse.ts:27-45 | none for no words; otherwise flat text or content under normal search, flat text only under fast search; never an `AndExp` |
| Parse.GetFulltext | src/services/search/services/parse.ts:27-45 | the diacritic-free words are highlighted and the result is `FulltextOf` of them |
| Parse.ParseExpressionTokens | src/services/search/services/parse.ts:457-464 | the top-level parse as written; an exception becomes a recorded error and `TrueExp`; no tokens give no expression; an earlier error is kept |
| Parse.AndOfConjuncts | src/services/search/services/parse.ts:466-471 | every present part other than an `AndExp` is a conjunct of `AndExp.of` |
| Parse.ConjunctsOfAndOf | src/services/search/services/parse.ts:466-471 | where no part is an `AndExp`, every conjunct of `AndExp.of` is one of the parts, or `TrueExp` when none is present |
| Parse.FilterConjuncts | src/services/search/services/parse.ts:466-471 | the filter requires the archived filter unless archived notes are included, and the ancestor restriction, the full-text part and the parsed expression when present; where none is an `AndExp`, it requires nothing else |
| Parse.ParseQuery | src/services/search/services/parse.ts:449-485 | `filter` is `AndExp.of` of the archived filter, the ancestor restriction, the full-text part and the parsed expression, in that order; an `orderBy` other than `relevancy` wraps it in an ordering with the context's direction and limit (none for 0); otherwise the filter is the result |
| AttributeFormatter.FormatValue | src/services/attribute_formatter.ts:32-48 | a value of word characters only is returned as is; any other is wrapped in a quote character, and unless it holds all three quote kinds that quote does not occur in it and the inside is the value itself |
| AttributeFormatter.FormatValueReadsBack | src/services/attribute_formatter.ts:32-48 | the formatted value reads back as the value: plain words as they are, quoted ones as the text between the quotes with `\"` read as `"` |
| AttributeFormatter.UnescapeEscape | src/services/attribute_formatter.ts:46 | unescaping undoes the escaping of every `"` |
| AttributeFormatter.EscapeFirst | src/services/attribute_formatter.ts:46 | the escaped text of a non-empty value never starts with `"` |
| AttributeFormatter.EscapedHasPair | src/services/attribute_formatter.ts:46 | a value with a `"` has a `\"` in its escaped text |
| AttributeFormatter.FormatAttrForSearch | src/services/attribute_formatter.ts:5-30 | an error exactly for a type other than label or relation; otherwise `#` or `~`, then the name, then, with `searchWithValue` and a non-empty value, `=` (`.noteId=` for a relation) and the formatted value |
| SearchRoute.SearchFromNote | src/routes/api/search.ts:14-27 | a missing note is a not-found error, a note of another type the validation error "Note '…' is not a search note."; otherwise the search of that note |
| SearchRoute.Take | src/routes/api/search.ts:100-103 | at most `n` leading records, all of them when there are no more |
| SearchRoute.FirstsShape | src/routes/api/search.ts:105-109 | one record per note, each taken from the hits, every note of the hits represented |
| SearchRoute.FirstsPrefix | src/routes/api/search.ts:100-110 | the records kept from a prefix stay first in the records kept from the whole list |
| SearchRoute.FirstsCount | src/routes/api/search.ts:94-98 | as many kept records as distinct notes |
| SearchRoute.DistinctCount | src/routes/api/search.ts:94-98 | records with distinct notes count as many notes as records |
| SearchRoute.GetRelatedNotes | src/routes/api/search.ts:78-116 | an error exactly when the attribute cannot be formatted; otherwise the count is the number of distinct notes among the name-and-value hits followed by the name hits, and the results are their first hits in that order, capped at 20 |
| SearchRoute.RelatedOf | src/routes/api/search.ts:94-110 | the two loops compute exactly the distinct-note count and the capped first-hit list |
| SearchRoute.RelatedShape | src/routes/api/search.ts:100-110 | at most 20 results, no note twice, each one of the hits |
| SearchRoute.RelatedSize | src/routes/api/search.ts:100-110 | the result size is the number of distinct notes capped at 20, and below the cap every note appears |
| SearchRoute.NameAndValueFirst | src/routes/api/search.ts:87-92 | the results begin with the related list of the name-and-value hits alone |
| InheritedAttributes.GetInheritedAttributes | src/public/app/widgets/ribbon_widgets/inherited_attribute_list.js:95-108 | no attribute of the note itself, and a permutation of exactly the attributes owned by other notes |
| InheritedAttributes.InheritedGrouped | src/public/app/widgets/ribbon_widgets/inherited_attribute_list.js:98-105 | the attributes of one owner are contiguous and by ascending position, owners come in ascending id order |
| InheritedAttributes.AttrLeTotalPreorder | src/public/app/widgets/ribbon_widgets/inherited_attribute_list.js:98-105 | the comparator is total and transitive, so the sort is well defined |
| InheritedAttributes.StrLessTotal | src/public/app/widgets/ribbon_widgets/inherited_attribute_list.js:103 | the string order relates any two distinct ids |
| InheritedAttributes.StrLessTrans | src/public/app/widgets/ribbon_widgets/inherited_attribute_list.js:103 | the string order is transitive |
| InheritedAttributes.StrLessIrreflexive | src/public/app/widgets/ribbon_widgets/inherited_attribute_list.js:103 | no id is less than itself |
| HoistedNote.IsHoistedInHiddenSubtree | src/services/hoisted_note.ts:8-24 | false for `root`, true for `_hidden`, the error "Cannot find hoisted note '…'" exactly for another missing note |
| HoistedNote.HoistedInHiddenMeaning | src/services/hoisted_note.ts:8-24 | the hoisted note is in the hidden subtree exactly when every one of its note paths passes through `_hidden` |
| HoistedNote.GetWorkspaceNote | src/services/hoisted_note.ts:26-34 | the hoisted note when it exists and is the root or has a `workspace` label, otherwise the root |
| EtapiTokens.Credential | src/services/etapi_tokens.ts:33-49 | a header not starting with `Basic ` is the credential itself; a `Basic` one yields the password exactly when the decoded text splits at `:` into two parts with user `etapi` |
| EtapiTokens.ParseAuthToken | src/services/etapi_tokens.ts:28-65 | a missing or empty header, or a refused `Basic` one, gives null; a credential without `_` is a legacy token with no id, one with a single `_` is split into id and secret that join back to it, more than one `_` gives null |
| EtapiTokens.LegacyTokenParses | src/services/etapi_tokens.ts:53-55 | a header without `_` that is not `Basic` parses to the secret alone |
| EtapiTokens.CreatedTokenParses | src/services/etapi_tokens.ts:24-61 | the `<id>_<secret>` header handed out parses back to that id and secret when neither contains `_` |
| EtapiTokens.EtapiTokenStore.constructor | src/services/etapi_tokens.ts:1-12 | the store starts with the given tokens, hash and decoding |
| EtapiTokens.EtapiTokenStore.CreateToken | src/services/etapi_tokens.ts:14-26 | a token with the name and the hash of the secret is stored under the new id, and `<id>_<secret>` is returned |
| EtapiTokens.EtapiTokenStore.IsValidAuthHeader | src/services/etapi_tokens.ts:67-94 | valid exactly when the header parses and either names a stored token whose hash is the secret's hash or, without an id, some stored token has that hash |
| EtapiTokens.EtapiTokenStore.RenameToken | src/services/etapi_tokens.ts:96-105 | an unknown id is the error "Token '…' does not exist" and nothing changes; otherwise only that token's name changes |
| EtapiTokens.EtapiTokenStore.DeleteToken | src/services/etapi_tokens.ts:107-115 | the token leaves the store; an unknown id changes nothing |
| EtapiTokens.CreatedTokenValid | src/services/etapi_tokens.ts:14-84 | the header a fresh token was created with authenticates against the store it was added to |
| EtapiTokens.DeletedTokenInvalid | src/services/etapi_tokens.ts:76-115 | after deletion, a header naming that token id no longer authenticates |
| EtapiTokens.RenameKeepsValidity | src/services/etapi_tokens.ts:96-105 | renaming changes no header's validity |
| EtapiUtils.GetAndCheck | src/etapi/etapi_utils.ts:83-125 | the entity when its id is known, otherwise a 404 error with the kind's code and the message `<Kind> '<id>' not found.` |
| EtapiUtils.GetAndCheckNote | src/etapi/etapi_utils.ts:83-92 | the note, or 404 `NOTE_NOT_FOUND` "Note '…' not found." exactly when it is missing |
| EtapiUtils.GetAndCheckAttachment | src/etapi/etapi_utils.ts:94-103 | the attachment, or 404 `ATTACHMENT_NOT_FOUND` exactly when it is missing |
| EtapiUtils.GetAndCheckBranch | src/etapi/etapi_utils.ts:105-114 | the branch, or 404 `BRANCH_NOT_FOUND` exactly when it is missing |
| EtapiUtils.GetAndCheckAttribute | src/etapi/etapi_utils.ts:116-125 | the attribute, or 404 `ATTRIBUTE_NOT_FOUND` exactly when it is missing |
| EtapiUtils.FirstFailure | src/etapi/etapi_utils.ts:133-139 | the first truthy validator message, or none exactly when every validator passes |
| EtapiUtils.ValidateMeaning | src/etapi/etapi_utils.ts:128-141 | validation passes exactly when every property is allowed and passes its validators; a failure is a 400 with `PROPERTY_NOT_ALLOWED` or `PROPERTY_VALIDATION_ERROR` |
| EtapiUtils.ValidateAll | src/etapi/etapi_utils.ts:128-141 | the nested validation loops compute exactly that verdict, first failure first |
| EtapiUtils.PatchedMeaning | src/etapi/etapi_utils.ts:144-146 | the patched target holds every source value and keeps every other property |
| EtapiUtils.PatchTarget.constructor | src/etapi/etapi_utils.ts:127 | the target starts with the given properties |
| EtapiUtils.PatchTarget.ValidateAndPatch | src/etapi/etapi_utils.ts:127-147 | the outcome is the validation verdict; a failure leaves the target unchanged, success patches every source property in |
| DateNotes.Ordinal | src/services/date_notes.ts:153-158 | the number followed by the suffix picked with JavaScript's truncating `%` (NaN prints as `NaNth`) |
| DateNotes.OrdinalOfDaysOfMonth | src/services/date_notes.ts:152-158 | for every day 1 to 31 the suffix is the English one (1st, 2nd, 3rd, 11th, 12th, 13th, 21st, 22nd, 23rd, 31st, otherwise th) |
| DateNotes.Prefix | src/services/date_notes.ts:107-108 | `substr(0, n)`/`slice(0, n)` is the prefix of length `n`, or the whole string when shorter |
| DateNotes.DefaultMonthTitle | src/services/date_notes.ts:93-102 | without a `monthPattern` label a month note is titled `<month number> - <month name>` |
| DateNotes.ShortMonthTitles | src/services/date_notes.ts:98-99 | `{shortMonth3}` and `{shortMonth4}` are the first three and four letters of the month name |
| DateNotes.DefaultMonthPatternHasNoShortMonth | src/services/date_notes.ts:94-99 | the short-month replacements leave the default month pattern alone |
| DateNotes.DefaultDayTitle | src/services/date_notes.ts:139-150 | without a `datePattern` label a day note is titled `<day number> - <week day name>` |
| DateNotes.DefaultDayPatternHasNoOrdinal | src/services/date_notes.ts:140-145 | the ordinal replacement leaves the default day pattern alone |
| DateNotes.DefaultDayPatternNumbered | src/services/date_notes.ts:140-147 | in the default day pattern the day number comes first and there is no `{isoDate}` |
| DateNotes.ShortWeekDayTitles | src/services/date_notes.ts:148-149 | `{weekDay3}` and `{weekDay2}` are the first three and two letters of the week day name |
| DateNotes.ShortWeekDayKept | src/services/date_notes.ts:144-147 | the short week-day placeholders survive the earlier replacements |
| DateNotes.PlaceholderReplaced | src/services/date_notes.ts:97-101 | a text that is the placeholder becomes the replacement |
| DateNotes.YearKey | src/services/date_notes.ts:68 | the year key is at most four characters |
| DateNotes.MonthKey | src/services/date_notes.ts:107 | the month key is at most seven characters |
| DateNotes.MonthNumber | src/services/date_notes.ts:108 | the month number is at most two characters |
| DateNotes.DayKey | src/services/date_notes.ts:163 | the day key is at most ten characters |
| DateNotes.DayNumber | src/services/date_notes.ts:173 | the day number is at most two characters |
| DateNotes.DayKeyNests | src/services/date_notes.ts:65-173 | for a date of at least ten characters the day key is its first ten, and the month and year keys derived from it are the date's first seven and four characters |
| DateNotes.WeekDayOf | src/services/date_notes.ts:141 | the week day is between 0 (Sunday) and 6 |
| DateNotes.WeekStart | src/services/date_notes.ts:220 | the week starts on `monday` unless the options name a start |
| DateNotes.StartOfWeekMeaning | src/services/date_notes.ts:198-213 | defined exactly for `monday` and `sunday`; the start is that week day and lies less than a week before or on the date |
| DateNotes.LocalDate.constructor | src/services/date_notes.ts:222 | a date holds its day |
| DateNotes.LocalDate.MoveBack | src/services/date_notes.ts:212 | `setDate` moves the date back by the given number of days |
| DateNotes.GetStartOfTheWeek | src/services/date_notes.ts:198-213 | the date itself is moved to the start of its week and a new date for that day is returned; an unknown start is the error "Unrecognized start of the week …" and leaves the date alone |
| Scheduler.GetRunAtHours | src/services/scheduler.ts:11-19 | one parsed hour (or NaN) per `runAtHour` value |
| Scheduler.LabelValuesMeaning | src/becca/entities/bnote.ts:638-640 | the values are empty exactly when there is no label of that name, and a value is listed exactly when a label of that name carries it |
| Scheduler.RunAtHoursMeaning | src/services/scheduler.ts:11-19 | no hours exactly when there is no `runAtHour` label; an hour is listed exactly when some `runAtHour` value parses to it |
| Scheduler.ShouldRunMeaning | src/services/scheduler.ts:30-32 | a note runs exactly when it has no `runOnInstance` label or one naming this instance, and no `runAtHour` label or one whose value parses to the current hour |
| Scheduler.DecimalHourRuns | src/services/scheduler.ts:28-32 | a `runAtHour` label written as the current decimal hour lets an otherwise unrestricted note run |
| Scheduler.RunNotesWithLabel | src/services/scheduler.ts:21-36 | exactly the notes the rule admits are executed, in the order given, and each carries the `run` label with the requested value |
| SyncOptions.Get | src/services/sync_options.ts:13-15 | a non-empty value of the config `Sync` section wins; otherwise the stored option; an empty result means the stored option is empty |
| SyncOptions.GetSyncServerHost | src/services/sync_options.ts:20 | a non-empty `TRILIUM_SYNC_SERVER_HOST` wins over `get('syncServerHost')` |
| SyncOptions.IsSyncSetup | src/services/sync_options.ts:21-27 | set up exactly when the configured host is neither empty nor `disabled` |
| SyncOptions.GetSyncTimeout | src/services/sync_options.ts:28 | never 0: the parsed timeout, or 120000 when parsing gives NaN or 0 |
| SyncOptions.GetSyncProxy | src/services/sync_options.ts:29 | the configured proxy, else the stored one |
| SyncOptions.DisabledOverridesStoredHost | src/services/sync_options.ts:21-27 | a config file saying `disabled` turns sync off whatever host the document stores |
| SyncOptions.StoredHostDecides | src/services/sync_options.ts:13-27 | with no config override, sync is set up exactly when the stored host is neither empty nor `disabled` |
| SyncOptions.EnvironmentHostDoesNotSetUpSync | src/services/sync_options.ts:20-27 | the environment host is used as the host, yet `isSyncSetup` ignores it |
| SyncOptions.DecimalTimeoutUsed | src/services/sync_options.ts:28 | a non-zero decimal timeout is used as it is |
| Log.PadReadsBack | src/services/log.ts:94-98 | a padded non-negative value is digits that read back as the value, two of them below 100; a negative one gets a `0` in front |
| Log.PadMilliReadsBack | src/services/log.ts:100-110 | a padded non-negative millisecond count reads back as itself, three digits below 1000; a negative one gets `00` in front |
| Log.TimeParts | src/services/log.ts:112-114 | within a day the hours, minutes, seconds and milliseconds taken recompose the time |
| Log.FormatTimeReadsBack | src/services/log.ts:112-114 | within a day the stamp is `hh:mm:ss.mmm`, fields in range, reading back as the time |
| Log.FormatDateReadsBack | src/services/log.ts:116-118 | for a four-digit year the date is `YYYY-MM-DD` and reads back as the year, the month counted from 1 and the day |
| Log.CheckedMillis | src/services/log.ts:43-51 | below a day the time is unchanged; from one to two days it comes back within the day |
| Log.Prefixed | src/services/log.ts:53-58 | the text as is, or `[Script <id>] ` in front when a script bundle is running |
| Log.RequestLine | src/services/log.ts:90-91 | the line starts with `Slow ` exactly when the request took 10 ms or more and ends with the time in ms |
| Log.RequestText | src/services/log.ts:90-91 | the line without the slow prefix never starts with `S` and ends with the time in ms |
| Log.LogFile.constructor | src/services/log.ts:21-41 | the log starts at the given midnight, writing to the file named after that date, with the platform's line ending and nothing written |
| Log.LogFile.InitLogFile | src/services/log.ts:31-41 | the new midnight and the file named after its date; nothing written |
| Log.LogFile.CheckDate | src/services/log.ts:43-51 | from a full day on, the file for the new day is opened and the time comes back a day; otherwise nothing changes |
| Log.LogFile.Write | src/services/log.ts:64 | one stamped line is appended to the current file |
| Log.LogFile.Log | src/services/log.ts:53-67 | one line stamped with the checked time and the prefixed text is appended to the file open after the date check |
| Log.LogFile.Error | src/services/log.ts:73-75 | the same line with `ERROR: ` in front of the message |
| Log.LogFile.Request | src/services/log.ts:79-92 | nothing for a URL starting with a listed prefix or holding `.js.map`/`.css.map`; otherwise one request line is logged |
| Enex.StripSeparators | src/services/import/enex.ts:23 | every `-` and `:` removed and nothing else |
| Enex.ParseDate | src/services/import/enex.ts:21-30 | the Trilium date ends with `.000Z` |
| Enex.ParseDateOfStripped | src/services/import/enex.ts:21-30 | a text that strips to the compact layout gives the Trilium date of its fields |
| Enex.ParseDateForms | src/services/import/enex.ts:17-30 | both ENEX forms, `20181121T193703Z` and `2013-04-14T16:19:00.000Z`, give the same Trilium date with the milliseconds dropped |
| Enex.StripIso | src/services/import/enex.ts:23 | the ISO form strips to the compact one with the milliseconds left at the end |
| Enex.LayoutOfCompact | src/services/import/enex.ts:26-27 | the fields `parseDate` picks all lie in the first 15 characters of the compact form |
| Enex.LastIndexOf | src/services/import/enex.ts:83 | the last occurrence of the pattern, or -1 exactly when there is none |
| Enex.NoteBody | src/services/import/enex.ts:77-89 | the body is never longer than the content |
| Enex.NoteBodyOfWrapped | src/services/import/enex.ts:77-89 | `<prologue><en-note>body</en-note><epilogue>` with no tags outside gives the trimmed body |
| Enex.NoteBodyUnwrapped | src/services/import/enex.ts:77-89 | without the wrapper tags the body is the trimmed content |
| Enex.SkipSpaces | src/services/import/enex.ts:107-108 | `\s*` consumes exactly the white space at that point |
| Enex.MatchLength | src/services/import/enex.ts:92-108 | a pattern matches only text that starts with its opening literal, and never past the end |
| Enex.CheckedTagMatches | src/services/import/enex.ts:107-108 | the checked pattern matches a whole `<en-todo checked="true"/>` tag with any white space, the unchecked one does not |
| Enex.UncheckedTagMatches | src/services/import/enex.ts:107-108 | the unchecked pattern matches a whole `<en-todo checked="false"/>`, the checked one does not |
| Enex.BareTagMatches | src/services/import/enex.ts:108 | the unchecked pattern matches a whole `<en-todo/>`, the checked one does not |
| Enex.CheckedTodoBecomesBallotBoxWithCheck | src/services/import/enex.ts:107-108 | `<en-todo checked="true"/>` becomes ☑ followed by a space |
| Enex.UncheckedTodoBecomesBallotBox | src/services/import/enex.ts:108 | `<en-todo checked="false"/>` becomes ☐ followed by a space |
| Enex.BareTodoBecomesBallotBox | src/services/import/enex.ts:108 | `<en-todo/>` becomes ☐ followed by a space |
| Enex.ReplaceSkipsText | src/services/import/enex.ts:92-108 | text before the first `<` passes through every rewrite |
| Enex.PlainTextUnchanged | src/services/import/enex.ts:92-104 | text without tags is left as it is by the list rewrites |
| Enex.SaveNote | src/services/import/enex.ts:258-376 | an error "Missing title or content for note." exactly when either is missing; otherwise the title and attributes kept, the content extracted and sanitised, created at the ENEX date or else the service's, modified at the ENEX date or else when created |
| Enex.ModifiedFallsBackToCreated | src/services/import/enex.ts:282-284 | without an `updated` date the note is modified when created; with neither date both are the service's creation time |
| NoteMap.ImageLinkTargets | src/routes/api/note_map.ts:23 | exactly the targets of the note's `imageLink` relations |
| NoteMap.NonHiddenChildren | src/routes/api/note_map.ts:24-25 | exactly the children that no `imageLink` relation of the note targets |
| NoteMap.Below | src/routes/api/note_map.ts:29-31 | the notes `getCount` files for a note: the note itself and stored notes only |
| NoteMap.BelowMeaning | src/routes/api/note_map.ts:29-31 | below a note lie the note and what lies below its children |
| NoteMap.BelowAllMeaning | src/routes/api/note_map.ts:29-31 | below a list of children lies exactly what lies below one of them |
| NoteMap.BelowListed | src/routes/api/note_map.ts:36-38 | what counting the listed notes files is made of stored notes |
| NoteMap.ChildrenCountAtLeast | src/routes/api/note_map.ts:27-31 | every child's descendant count is part of its parent's count |
| NoteMap.ChildCountBelowParent | src/routes/api/note_map.ts:27-31 | a child that is counted directly has a strictly smaller count than its parent |
| NoteMap.DescendantCounter.constructor | src/routes/api/note_map.ts:14 | the memo starts empty |
| NoteMap.DescendantCounter.GetCount | src/routes/api/note_map.ts:16-35 | `getCount`: nothing for a missing note, else its descendant count (the number of non-image children plus each child's count); afterwards the memo holds the note and everything below it, and the entries of callers still walking their children are unchanged |
| NoteMap.DescendantCounter.CountNote | src/routes/api/note_map.ts:18-31 | a note not yet counted gets its full descendant count filed, along with everything below it |
| NoteMap.DescendantCounter.AddChildCount | src/routes/api/note_map.ts:29-31 | one child's count is added to the open note's partial entry, and what lies below that child is filed |
| NoteMap.DescendantCounter.CountChildren | src/routes/api/note_map.ts:29-31 | after the loop the open note's entry is its direct count plus every child's descendant count, and everything below the children is filed |
| NoteMap.DescendantCounter.CountListed | src/routes/api/note_map.ts:36-38 | after counting the first `i + 1` listed notes the memo holds exactly them (if stored) and everything below them |
| NoteMap.MemoOpen | src/routes/api/note_map.ts:27 | filing the partial count of a newly opened note keeps the memo invariant |
| NoteMap.MemoBump | src/routes/api/note_map.ts:30 | the open note's partial entry may grow without breaking the invariant |
| NoteMap.MemoClose | src/routes/api/note_map.ts:32-34 | a note whose count is complete can be closed |
| NoteMap.BuildDescendantCountMap | src/routes/api/note_map.ts:9-41 | "noteIdsToCount: type error" exactly when not given an array; otherwise the count map of the listed notes |
| NoteMap.MemoIsCountMap | src/routes/api/note_map.ts:36-40 | a complete memo holding exactly the listed notes and what lies below them is the count map |
| NoteMap.CountMapMeaning | src/routes/api/note_map.ts:9-41 | a note has an entry exactly when it is listed or lies below a listed stored note, and the entry is its descendant count |
| NoteMap.GetNeighbors | src/routes/api/note_map.ts:42-92 | the ids pushed, in order, are the neighbourhood of the note within `depth` hops |
| NoteMap.PushLinked | src/routes/api/note_map.ts:54-89 | one relation loop pushes, per relation that is not ignored and whose far end exists and is not excluded, that note and then its own neighbours one hop shallower |
| NoteMap.LinkedMembers | src/routes/api/note_map.ts:54-89 | a note is pushed by a loop exactly when it is near some far end the loop follows |
| NoteMap.LinkedBySnoc | src/routes/api/note_map.ts:49-51 | a far end is followed exactly when some relation to it is not `relationMapLink`, `template`, `inherit`, `image` or `ancestor` |
| NoteMap.NeighborsMeaning | src/routes/api/note_map.ts:42-92 | a note is a neighbour within `depth` hops exactly when `depth > 0` and some hop from the note is it or has it as a neighbour within `depth - 1` |
| NoteMap.NeighborOrigin | src/routes/api/note_map.ts:42-92 | every neighbour was reached through some hop |
| NoteMap.NeighborIntro | src/routes/api/note_map.ts:42-92 | a note near a hop is a neighbour |
| NoteMap.NeighborsIncluded | src/routes/api/note_map.ts:59-82 | every neighbour exists and carries no truthy `excludeFromNoteMap` |
| NoteMap.NeighborsGrowWithDepth | src/routes/api/note_map.ts:42-92 | a deeper walk finds every note a shallower one does |
| NoteMap.NearGrows | src/routes/api/note_map.ts:42-92 | nearness within `depth` hops implies nearness within `depth + 1` |
| NoteMap.SetAdd | src/routes/api/note_map.ts:124 | `Set.add` keeps insertion order and distinctness, adding exactly the element |
| NoteMap.SetAddAll | src/routes/api/note_map.ts:113-125 | adding many keeps distinctness and adds exactly them |
| NoteMap.SetDelete | src/routes/api/note_map.ts:120 | `Set.delete` removes exactly that element, keeping distinctness |
| NoteMap.AddShown | src/routes/api/note_map.ts:113-117 | the set built from the filtered notes holds their first occurrences in order |
| NoteMap.AddAll | src/routes/api/note_map.ts:123-125 | the neighbours are added to the set in order |
| NoteMap.LinkMapNoteIdsMembers | src/routes/api/note_map.ts:113-127 | no note twice; a note is on the link map exactly when it passed the exclusion filter (ignored when the root itself is excluded) and is not a search root, or is a neighbour of the root within 3 hops |
| NoteMap.LinkMapHidesExcluded | src/routes/api/note_map.ts:97-125 | unless the root is itself excluded, no note with a truthy `excludeFromNoteMap` is on the link map |
| NoteMap.LinkMapLinks | src/routes/api/note_map.ts:140-164 | at most one link per relation, both ends on the map, never `relationMapLink`/`template`/`inherit`, and an `imageLink` only when its target is not a child of its source |
| NoteMap.LinkMapLinksComplete | src/routes/api/note_map.ts:140-164 | every relation passing the filter is drawn as a link |
| NoteMap.LinkOrigin | src/routes/api/note_map.ts:140-164 | every link comes from a relation passing the filter |
| NoteMap.GetLinkMap | src/routes/api/note_map.ts:94-171 | not found exactly when the root is missing; otherwise the link-map notes, the count map of those notes, and the links among them |
| NoteMap.FirstImageLink | src/routes/api/note_map.ts:191 | the first `imageLink` target relation, or none exactly when there is none |
| NoteMap.TreeMapRowsMembers | src/routes/api/note_map.ts:184-207 | a row is shown exactly when its note is in the subtree, passes the exclusion filter and is not an image drawn inside its parent; the ids are the rows' non-empty ids, no id twice |
| NoteMap.TreeLinks | src/routes/api/note_map.ts:209-220 | at most one link per relationship, each a relationship with both ends shown |
| NoteMap.TreeLinksComplete | src/routes/api/note_map.ts:211-220 | every relationship between two shown notes is drawn |
| NoteMap.CollectTreeLinks | src/routes/api/note_map.ts:209-220 | the links loop computes exactly the tree links |
| NoteMap.OrOne | src/routes/api/note_map.ts:241 | `m[k] \|\| 1`: the count when it is positive, and 1 when the count is missing or zero |
| NoteMap.SearchCountsKeys | src/routes/api/note_map.ts:233-243 | only search parents of relationships gain an entry |
| NoteMap.SearchCountsGrow | src/routes/api/note_map.ts:233-243 | other notes keep their counts; a search note's count grows by at least one per relationship it is the parent of |
| NoteMap.UpdateDescendantCountMapForSearch | src/routes/api/note_map.ts:233-243 | the loop computes exactly the search-credited counts |
| NoteMap.GetTreeMap | src/routes/api/note_map.ts:173-231 | not found exactly when the root is missing; otherwise the filtered rows, the links among the shown notes, and their count map with search notes credited for their results |
| RelationMap.TrimAll | src/routes/api/relation-map.ts:40-45 | every token trimmed, one for one |
| RelationMap.NameList | src/routes/api/relation-map.ts:37-45 | a missing or blank label gives no names; otherwise one name per comma-separated token |
| RelationMap.DrawnRelations | src/routes/api/relation-map.ts:53-64 | each drawn relation points at a requested note and is among the displayed names when some are given, else not among the hidden ones |
| RelationMap.DrawnRelationsOrigin | src/routes/api/relation-map.ts:53-64 | every drawn row comes from a relation passing all three filters (not an automatic link unless displayed; displayed or not hidden; target requested) |
| RelationMap.DrawnRelationsComplete | src/routes/api/relation-map.ts:53-64 | every relation passing the filters is drawn |
| RelationMap.RelationDefinitions | src/becca/entities/bnote.ts:846-849 | exactly the labels whose name starts with `relation:` |
| RelationMap.InverseAllConcat | src/routes/api/relation-map.ts:66-73 | recording the definitions of one list after another is recording their concatenation |
| RelationMap.InverseKeysComplete | src/routes/api/relation-map.ts:69-72 | both the defined name and the inverse name of every definition with an inverse become keys |
| RelationMap.InverseEntryOrigin | src/routes/api/relation-map.ts:66-73 | every entry is an initial one left untouched, or one direction of some definition's pair |
| RelationMap.LastDefinitionWins | src/routes/api/relation-map.ts:70-71 | the last definition with an inverse decides both of its entries; the inverse name's entry wins when both names are the same |
| RelationMap.Titles | src/routes/api/relation-map.ts:50-51 | a title for exactly the found notes, each its note's title |
| RelationMap.AllDrawn | src/routes/api/relation-map.ts:50-64 | every relation drawn for any found note satisfies the filters |
| RelationMap.DefinitionOwner | src/routes/api/relation-map.ts:50-66 | every definition gathered belongs to a found note |
| RelationMap.RelationMapInverseOrigin | src/routes/api/relation-map.ts:24-73 | every inverse entry is `internalLink` to itself or one direction of a pair declared by a found note's relation definition |
| RelationMap.AddInverses | src/routes/api/relation-map.ts:66-73 | the inner loop records exactly the inverse pairs of one note's definitions |
| RelationMap.GetRelationMap | src/routes/api/relation-map.ts:16-77 | only the `internalLink` inverse when no non-empty array of ids is asked for; not found when the map note is missing; otherwise titles, drawn relations and inverses of the found notes |
| Blob.ProcessContent | src/services/blob.ts:30-51 | never null; string content always reads as a string; protected content outside a session is empty; unprotected null reads as `""` or an empty buffer, a string stays itself, a buffer stays itself or is decoded as UTF-8 when string content is wanted |
| Blob.UnprotectedIgnoresDecrypt | src/services/blob.ts:31-37 | unprotected content does not depend on the session or on decryption |
| Blob.ProtectedIsDecrypted | src/services/blob.ts:31-34 | inside a session, protected content is read as its decryption would be, null staying null |
| Blob.ProcessIdempotent | src/services/blob.ts:39-50 | processing unprotected content twice gives what processing once gives |
| Blob.GetBlobPojo | src/services/blob.ts:7-28 | not found for a missing entity or blob, with the messages of the source, and only then; otherwise the blob's row, its content null exactly for entities without string content and processed otherwise |
| Blob.ProtectedNoteWithoutSession | src/services/blob.ts:21-36 | a protected entity's string content reads as empty outside a session |
| IconUsage.WordLength | src/routes/api/other.ts:18 | the run of non-space characters a string starts with, ended by a space or the end |
| IconUsage.Words | src/routes/api/other.ts:18 | the pieces of `split(/\s+/)` are non-empty and contain no white space |
| IconUsage.WordsOfJoin | src/routes/api/other.ts:18 | splitting words joined by single spaces gives back the words |
| IconUsage.CountIntoTally | src/routes/api/other.ts:18-24 | counting classes on top of a tally is the tally of all of them with `bx` left out |
| IconUsage.TallyCounts | src/routes/api/other.ts:23 | a class has a count exactly when it occurs, and the count is its number of occurrences |
| IconUsage.LabelClassesMeaning | src/routes/api/other.ts:10-21 | a label contributes a class exactly when the label is not a system note's, lists it, and it is not `bx` |
| IconUsage.IconClassesMeaning | src/routes/api/other.ts:9-25 | a class is counted exactly when some user note's label lists it and it is not `bx` |
| IconUsage.CountClasses | src/routes/api/other.ts:18-24 | the inner loop adds one per class but `bx` |
| IconUsage.GetIconUsage | src/routes/api/other.ts:6-28 | a count for exactly the classes that user notes' `iconClass` labels list, `bx` excepted, each equal to the number of times it is listed |

## Left out

- File, database and network I/O: SQL queries, log file writes, console output and saving notes. The SQL lookups and the stores are parameters or maps; writing a log line is recorded as a (file, line) pair.
- Clocks and randomness: `dayjs()`/`Date.now()`, the calendar date of midnight and `randomSecureToken` are parameters.
- Foreign helpers are parameters or fixed functions:
  - the SHA-256/base64 hash and the base64 decoder;
  - `protectedSessionService.decrypt` and the UTF-8 decoding of buffers;
  - `htmlSanitizer.sanitize`;
  - `becca.getEntity`;
  - `becca.findAttributes`;
  - `getNotesWithLabel`;
  - the `getOption` store.
- `utils.normalize`, `removeDiacritic` and `getFlatText` are not modelled: they are foreign string helpers.
- `sortParents` is not modelled. Its comparator is not a consistent ordering, so no sortedness can be stated.
- `isInHiddenSubtree`, `getAttributeCaseInsensitive` and the other accessors of BNote not listed in the table are not modelled.
- Case folding and Unicode: strings are sequences of characters compared exactly. `split(/\s+/)` and `trim` use the JavaScript white-space set given in `Common`.
- Unshown search collaborators are not modelled: `AndExp`, `NotExp`, `ValueExtractor`, `buildComparator`, the comparison expressions and `searchAndExecute`. They are constructors of the expression datatype or parameters.
- `NoteSet` is a `set` of note ids, so the insertion order of its results is not kept.
- The date arithmetic behind the `now`/`today`/`month`/`year` operands of `parse.ts` is a parameter (`Env.relativeDate`): it depends on the clock.
- Cycles in the parent graph: the path walks, the ancestor cache, `isHiddenCompletely`, `getDistanceToAncestor` and the descendant counts assume a DAG. They carry a ghost rank that strictly grows from parent to child; the subtree walks and inheritance need no such assumption.
- NoteCache.Becca.ResolveAttributes: the cached list is not proved equal to the uncached `Inheritance.Resolve`. A cache filled while another note was on the path may hold a shorter list, as in the source. The model states instead that a freshly filled cache starts with the owned attributes, holds distinct stored attributes, and that each entry is owned, from a parent's cache or from a template target's cache (`Sourced`); completeness is stated only for `Inheritance.Resolve`.
- The calendar find-or-create flows (`getYearNote`, `getMonthNote`, `getDayNote`, `getWeekNote`) are modelled only for the date keys they look up. Note creation and the transactions are not modelled.
- Scheduler timers and script execution are not modelled: executing a note is recorded by returning it. The try/catch of `getRunAtHours` is not modelled either: label values are given as strings, so reading them cannot throw.
- `checkEtapiAuth` and the HTTP plumbing around the ETAPI routes are not modelled.
- ENEX import:
  - the sax streaming parser, resources and attachments are not modelled;
  - the `saveNote` resource loop is not modelled;
  - the OneNote `en-media` rewrites of `extractContent` are not modelled.
- `calculateContentHash` of `blob.ts` is not modelled: it depends on the hash.
- Note map:
  - the subtree and search results are passed in as the notes and relationships they return;
  - each note's resolved attributes and `excludeFromNoteMap` flag, and the whole attribute table, are passed in;
  - the titles and colours of the rows (`getTitleOrProtected`, `getLabelValue('color')`) are not modelled;
  - the message of `getNoteOrThrow` is not kept;
  - the HTML image removal (`note_map.ts` 245-342) is not modelled: it works on a DOM.
- Relation map: `isAutoLink`, `getDefinedName` and the parsed `inverseRelation` of a definition are parameters (`battribute.ts` is not part of this model).
- Icon usage: JavaScript object keys that clash with `Object.prototype` members are ordinary keys here.

## Findings

| source | as written | input that shows it | evidently intended | confidence | as-written member | corrected member |
|---|---|---|---|---|---|---|
| src/services/search/services/parse.ts:370-413 | a nested group is parsed with `level++`, a post-increment of the enclosing level: the group is parsed at the enclosing level, and the enclosing level goes up by one for the rest of the query | `(#a) orderby title` records "orderBy can appear only on the top expression level" and yields the label without an ordering, since `orderby` after the group is seen at level 1; `(#a orderby title)` is accepted and ordered, since the group is parsed at level 0 | the group is parsed at `level + 1` and the enclosing level stays unchanged, so `orderby`/`limit` are allowed only at the top level | not executed | Parse.AsWrittenRefusesOrderByAfterGroup, Parse.AsWrittenAcceptsOrderByInGroup | Parse.IntendedAcceptsOrderByAfterGroup, Parse.IntendedRefusesOrderByInGroup, Parse.IntendedOrdersOnlyAtTop |
