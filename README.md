# basketdrills — a Dafny model of the training-planner logic

basketdrills is a small React web application for basketball coaches. It shows a catalogue of
drills. The coach collects drills into a training cart, orders them by drag and drop, saves the
training in the browser's local storage, shares it through a link, and exports it as a PDF.
A data-entry page builds the JSON record of a new drill. A course page lists links and
documents. Three developer scripts check the braces of a source file.

This project models the deterministic logic behind those pages in Dafny and proves what it
promises. The pages stay in their own shape:

- **Cart.** The cart store (`Cart.CartStore`) is a class whose `selected` list is replaced by
  every operation.
- **Pages.** The page components with state (`Trainings.TrainingsPage`,
  `Shared.SharedPage`, `Session.SessionPage`, `DataEntry.DataEntryPage`,
  `DrillModal.Modal`) are classes whose fields are the React state.
- **Storage.** The `savedSessions` entry of local storage is a class
  (`Storage.SessionStore`). Its content is `None` when the stored text does not parse.
- **PDF.** The PDF document is a class with a list of pages of abstract drawing marks. The
  pagination loop is a method proved against a layout function (`Pdf`).
- **Loops.** Loops that build something step by step are methods with loop invariants. These
  are the vocabularies, the tag colours and the two brace scans. The expression code is
  functions with lemmas.

Module layout. There is one module per source file:

- `Cart`, `Trainings`, `Shared`, `Session`, `DataEntry`, `DrillModal`, `Button`, `Cursus`;
- `FindUnmatched`, `BraceDepth` and `CountChars` for the three scripts.

Shared modules hold what several files repeat:

- `Drills`: drill records, id look-up, picture normalisation, total duration;
- `Reorder`: the `splice` move;
- `Carousel`: modular picture index;
- `Vocabulary`: sorted distinct string lists;
- `Slug`: the share-link slug;
- `Storage`: the saved sessions;
- `Pdf`: the PDF layout, written twice in the source;
- `Text`: trimming, ASCII case mapping, `parseInt`, decimal strings;
- `Lines`: `split(/\r?\n/)`;
- `Seqs`: filter and count;
- `Wrappers`: `Option`.

What the code does, as the model states it:

- **Overflow test.** The PDF overflow test runs after a block has been drawn and the cursor
  moved, so a block can run past the bottom limit (`Pdf.BlockCanPassLimit`).
- **Pictures.** Only the first picture of a drill is placed in the PDF, in a fixed box.
- **Separators.** A separator is drawn before every drill but the first, also at the top of
  a new page.
- **Last-page logo.** The logo is stamped on the last page even when that page is the empty
  page opened by a trailing overflow.

## Model

| member | source | states |
|---|---|---|
| Cart.Added | src/contexts/CartContext.jsx:38-44 | adding a drill whose id is present leaves the list as it is, otherwise appends it at the end; the id is present afterwards and unique ids stay unique |
| Cart.AddedAll | src/pages/Trainings/Trainings.jsx:30-35 | adding drills one by one keeps the old list as a prefix |
| Cart.AddedAllContents | src/pages/Trainings/Trainings.jsx:30-35 | adding drills one by one keeps ids unique and holds exactly the old ids and the added ones, never more entries than both lists together |
| Cart.CartStore.constructor | src/contexts/CartContext.jsx:18-26 | the cart starts with the stored list, or empty when nothing (readable) is stored |
| Cart.CartStore.AddDrill | src/contexts/CartContext.jsx:38-44 | the list becomes `Added`; the drill is in the cart, the count grows by one exactly when it was absent, membership of other ids is unchanged, unique ids stay unique |
| Cart.CartStore.RemoveDrill | src/contexts/CartContext.jsx:47-49 | the list is filtered in order on `id !== drillId`; the id is gone, other ids keep their membership |
| Cart.CartStore.ReorderDrills | src/contexts/CartContext.jsx:57-64 | the list becomes the splice move of `start` to `end`; membership and uniqueness of ids are unchanged |
| Cart.CartStore.ClearCart | src/contexts/CartContext.jsx:67-69 | the list is empty and no id is in the cart |
| Cart.CartStore.IsInCart | src/contexts/CartContext.jsx:52-54 | `some(d => d.id === drillId)`: true exactly when the id is among the ids of the list |
| Cart.CartStore.Count | src/contexts/CartContext.jsx:84 | the count is 0 exactly when no id is in the cart |
| Cart.CartStore.GetTotalDuration | src/contexts/CartContext.jsx:72-74 | the result is the left-to-right sum of the durations, a missing one counting 0 |
| Cart.RemovedIds | src/contexts/CartContext.jsx:47-54 | after filtering out an id it is absent, every other id keeps its membership, and unique ids stay unique |
| Cart.FilterUnique | src/contexts/CartContext.jsx:48 | filtering a list with unique ids keeps them unique |
| Cart.PermutationIds | src/contexts/CartContext.jsx:57-64 | two lists that are permutations of each other hold the same ids, and one is duplicate-free when the other is |
| Cart.UniqueIdsDistinct | src/contexts/CartContext.jsx:40-42 | a list with unique ids holds no drill twice |
| Cart.OnceInUnique | src/contexts/CartContext.jsx:40-42 | in a list with unique ids every drill occurs at most once |
| Drills.Ids | src/pages/TrainingSession/TrainingSession.jsx:68 | the ids of a drill list, one per drill, in order |
| Drills.FindDrill | src/pages/Trainings/Trainings.jsx:33 | `find` returns nothing exactly when no record has the id, else a catalogue record with that id |
| Drills.Resolve | src/pages/Trainings/SharedTraining.jsx:57 | `map(find).filter(Boolean)`: never more records than ids, every one a catalogue record |
| Drills.ResolveKeepsKnownIds | src/pages/Trainings/Trainings.jsx:85 | resolving an id list gives the records of exactly the ids the catalogue knows, in order and with repeats |
| Drills.ResolveFindsFirst | src/pages/Trainings/Trainings.jsx:85 | every resolved record is the one `find` returns for its id |
| Drills.ResolveAppend | src/pages/Trainings/Trainings.jsx:157 | resolving two lists one after the other equals resolving them joined |
| Drills.ResolveKnown | src/pages/Trainings/Trainings.jsx:85 | when every id is known, nothing is dropped and the ids come back in order |
| Drills.ResolveIds | src/pages/Trainings/SharedTraining.jsx:57 | resolving the ids of records that `find` returns gives the records back |
| Drills.TotalDurationAppend | src/pages/Trainings/SharedTraining.jsx:154 | the total duration of two lists joined is the sum of their totals |
| Drills.TotalDurationPermutation | src/contexts/CartContext.jsx:72-74 | reordering the drills does not change the total duration |
| Drills.TotalDurationRemove | src/contexts/CartContext.jsx:72-74 | the total is the total without one drill plus that drill's duration |
| Drills.TotalDurationBounds | src/contexts/CartContext.jsx:72-74 | with non-negative durations the total is non-negative and at least every single duration |
| Drills.NormalizePictures | src/components/DrillCard/DrillModal.jsx:18 | a list of pictures is kept, a single non-empty name is wrapped in a list, no picture gives the empty list |
| Drills.Lookup | src/components/DrillCard/DrillModal.jsx:19 | an image-map entry counts exactly when the file is a key with a non-empty value |
| Drills.ShownSource | src/pages/Trainings/SharedTraining.jsx:172-176 | the shown source is the mapped image of the current picture when there is one, else the placeholder |
| Drills.TotalDuration | src/contexts/CartContext.jsx:72-74 | the left-to-right sum of durations, a missing one counting 0; its laws are `Drills.TotalDurationAppend`, `Drills.TotalDurationPermutation`, `Drills.TotalDurationRemove` and `Drills.TotalDurationBounds` |
| Drills.ThumbSource | src/pages/TrainingSession/TrainingSession.jsx:197-201 | the thumbnail is the mapped image of the picture at the drill's index (0 when unset) when that index is in range and the file has a non-empty map entry, else the placeholder |
| Reorder.RemoveAt | src/contexts/CartContext.jsx:60 | `splice(i, 1)` shortens the list by one: the elements before `i` stay, those after move down one place |
| Reorder.InsertAt | src/contexts/CartContext.jsx:61 | `splice(i, 0, x)` lengthens the list by one: `x` is at `i`, the elements before stay, those after move up one place |
| Reorder.Move | src/contexts/CartContext.jsx:57-64 | the move keeps the length and the multiset, puts the moved element at `end`, and keeps every other element in relative order |
| Reorder.InsertRemoved | src/contexts/CartContext.jsx:60-61 | re-inserting a removed element where it was gives the list back |
| Reorder.MoveBack | src/contexts/CartContext.jsx:57-64 | moving an element back from `end` to `start` undoes the move |
| Reorder.Dropped | src/pages/Trainings/SharedTraining.jsx:34-45 | a drop with no dragged index or onto itself changes nothing; otherwise the dragged element lands at the drop index; always a same-length permutation |
| Carousel.Next | src/pages/Trainings/SharedTraining.jsx:180 | `(i + 1) % len` stays in `[0, len)` and wraps from the last index to 0 |
| Carousel.Prev | src/pages/Trainings/SharedTraining.jsx:179 | `(i - 1 + len) % len` stays in `[0, len)` and wraps from 0 to the last index |
| Carousel.PrevUndoesNext | src/components/DrillCard/DrillModal.jsx:32-33 | previous after next, and next after previous, return to the same picture |
| Carousel.NextTimes | src/components/DrillCard/DrillModal.jsx:33 | pressing next any number of times stays in range |
| Carousel.NextTimesIsModular | src/components/DrillCard/DrillModal.jsx:33 | pressing next `k` times from `i` reaches `(i + k) % len` |
| Carousel.Stepped | src/pages/TrainingSession/TrainingSession.jsx:84-99 | stepping one drill's entry (starting from 0 when unset) changes only that entry, moves it to next or previous, and keeps it in range |
| Vocabulary.SortedIsDistinct | src/pages/DataEntry/DataEntry.jsx:16 | a strictly sorted list has no duplicates |
| Vocabulary.StrictlySortedUnique | src/pages/DataEntry/DataEntry.jsx:13-37 | two strictly sorted lists with the same members are equal, so each vocabulary is determined by its members |
| Vocabulary.InsertSorted | src/pages/DataEntry/DataEntry.jsx:16 | inserting a new string into a strictly sorted list keeps it strictly sorted and adds exactly that string |
| Vocabulary.SortStrings | src/pages/DataEntry/DataEntry.jsx:16 | `Array.from(set).sort()`: a strictly sorted list with the same members |
| Vocabulary.SetAdd | src/pages/DataEntry/DataEntry.jsx:15 | `set.add(v)` keeps the members distinct and adds exactly `v` |
| Vocabulary.AgeGroups | src/pages/DataEntry/DataEntry.jsx:13-17 | the age groups are strictly sorted and are exactly the non-empty age groups of the catalogue |
| Vocabulary.CollectLists | src/pages/DataEntry/DataEntry.jsx:19-37 | the collected values are distinct and are exactly the values of the chosen list field in the catalogue |
| Vocabulary.EquipmentVocabulary | src/pages/DataEntry/DataEntry.jsx:19-27 | the equipment options are strictly sorted and are exactly the catalogue's equipment items |
| Vocabulary.TagVocabulary | src/pages/DataEntry/DataEntry.jsx:29-37 | the tag options are strictly sorted and are exactly the catalogue's tags |
| Slug.DropRun | src/pages/Trainings/Trainings.jsx:45-46 | dropping a leading run leaves a suffix that does not start with the run character |
| Slug.CollapseRuns | src/pages/Trainings/Trainings.jsx:45-46 | a collapsed string holds only dashes and input characters outside the collapsed class, is no longer than the input, and keeps a leading character outside the class |
| Slug.CollapseRunsKeeps | src/pages/Trainings/Trainings.jsx:45-46 | collapsing runs keeps, in order, every character that is neither in the class nor a dash, and leaves no double dash in a text without dashes |
| Slug.CollapseDashesNoDouble | src/pages/Trainings/Trainings.jsx:46 | after `replace(/-+/g, '-')` no two dashes follow each other |
| Slug.SlugShape | src/pages/Trainings/Trainings.jsx:39-47 | a slug consists of `a-z`, `0-9` and `-` only (so no whitespace), with no two dashes in a row |
| Slug.MakeSlug | src/pages/Trainings/Trainings.jsx:39-47 | an empty name gives the empty slug; otherwise lower case, keep the slug-source characters, trim, collapse whitespace runs to `-`, collapse dash runs; its properties are `Slug.SlugShape` and `Slug.SlugIdempotent` |
| Slug.CollapseRunsUnchanged | src/pages/Trainings/Trainings.jsx:46 | collapsing dash runs in a string without double dashes changes nothing |
| Slug.CollapseRunsNoMatch | src/pages/Trainings/Trainings.jsx:45 | collapsing whitespace in a string without whitespace changes nothing |
| Slug.SlugCharsKept | src/pages/Trainings/Trainings.jsx:41-44 | lower-casing, filtering and trimming a string of slug characters gives it back |
| Slug.LowerKept | src/pages/Trainings/Trainings.jsx:41 | lower-casing a string of slug characters changes nothing |
| Slug.TrimKept | src/pages/Trainings/Trainings.jsx:44 | trimming a string of slug characters changes nothing |
| Slug.SlugRunsKept | src/pages/Trainings/Trainings.jsx:45-46 | both run replacements leave a slug-shaped string unchanged |
| Slug.SlugIdempotent | src/pages/Trainings/Trainings.jsx:39-47 | making a slug of a slug gives the same slug |
| Storage.SaveMessage | src/pages/TrainingSession/TrainingSession.jsx:61-78 | each save outcome has its own message, and each message belongs to one outcome |
| Storage.FindSession | src/pages/Trainings/SharedTraining.jsx:55 | `find` gives nothing exactly when no session has the id, else the first session with it |
| Storage.WithoutSession | src/pages/Trainings/Trainings.jsx:24-28 | the remaining sessions are exactly those with another id |
| Storage.WithoutSessionSplits | src/pages/Trainings/Trainings.jsx:24-28 | the remaining and the deleted sessions together are the old list, and no session with the id remains |
| Storage.WithoutSessionAppend | src/pages/Trainings/Trainings.jsx:25 | deleting keeps the order of the remaining sessions |
| Storage.SessionStore.constructor | src/pages/Trainings/Trainings.jsx:11-13 | the store holds the given entry |
| Storage.SessionStore.Sessions | src/pages/Trainings/Trainings.jsx:12 | an unreadable entry reads as the empty list, a readable one as its sessions |
| Storage.SessionStore.Write | src/pages/Trainings/Trainings.jsx:26 | writing replaces the entry by the given list |
| Storage.SessionStore.Save | src/pages/TrainingSession/TrainingSession.jsx:59-80 | a blank name is refused and leaves storage unchanged; an unreadable entry fails and leaves it unchanged; otherwise one record with the trimmed name and the ids is appended after all existing ones |
| Storage.SavedRecord | src/pages/Trainings/SharedTraining.jsx:235-247 | the saved list keeps the old records as its prefix, and the new last record has the ids and a non-blank trimmed name |
| Trainings.ShareSegment | src/pages/Trainings/Trainings.jsx:50-52 | the path segment is the id's decimal text, followed by `-` and the slug of the session's name exactly when a session with that id exists |
| Trainings.ShareSegmentNoSlash | src/pages/Trainings/Trainings.jsx:50-52 | the path segment holds no `/`: digits, a minus sign, a dash and slug characters only |
| Trainings.ShareUrl | src/pages/Trainings/Trainings.jsx:52 | the link starts with the origin and `/share/`, and no `/` follows, so the route sees the rest as one segment |
| Trainings.TallyCounts | src/pages/Trainings/Trainings.jsx:109 | the usage map has an entry exactly for the ids that occur, holding their number of occurrences |
| Trainings.Tally | src/pages/Trainings/Trainings.jsx:109 | `map[id] = (map[id] \|\| 0) + 1` over a list; its laws are `Trainings.TallyCounts`, `Trainings.TallySnoc` and `Trainings.TallySum` |
| Trainings.AllDrillIds | src/pages/Trainings/Trainings.jsx:109 | the drill ids of all sessions joined in order; its law is `Trainings.AllDrillIdsMembers` |
| Trainings.TallySnoc | src/pages/Trainings/Trainings.jsx:109 | one more id increments its entry, starting from 0 |
| Trainings.SumRemove | src/pages/Trainings/Trainings.jsx:105-112 | the sum of a map's values is one entry plus the sum of the others |
| Trainings.TallySum | src/pages/Trainings/Trainings.jsx:105-112 | the counts add up to the number of ids counted |
| Trainings.UsageCounts | src/pages/Trainings/Trainings.jsx:105-112 | the usage of an id is its number of occurrences across all saved sessions, repeats included; an entry exists exactly for ids in some session; the counts add up to the total length of the drill lists |
| Trainings.AllDrillIdsMembers | src/pages/Trainings/Trainings.jsx:109 | an id occurs in the joined drill lists exactly when it occurs in some session |
| Trainings.EditedCart | src/pages/Trainings/Trainings.jsx:30-35 | editing a session fills the cart with unique drills whose ids are exactly the known ids of the session |
| Trainings.TallyInto | src/pages/Trainings/Trainings.jsx:109 | the inner loop counts one session's ids on top of the tally of the ids before them |
| Trainings.DrillUsage | src/pages/Trainings/Trainings.jsx:105-112 | the nested loops build the tally of all drill ids of the stored sessions |
| Trainings.UsageStaleAfterDelete | src/pages/Trainings/Trainings.jsx:24-28 | the counts taken at mount go stale: after deleting the only session, holding drill 7, the store tallies nothing while the page still holds drill 7 used once |
| Trainings.Viewed | src/pages/Trainings/Trainings.jsx:84-87 | the viewed session keeps id and name, and its drills are the records of exactly the known ids, in order and with repeats |
| Trainings.ResolveEntries | src/pages/Trainings/Trainings.jsx:157 | looking entries up with `find` and `filter(Boolean)` never gives more records than entries |
| Trainings.Records | src/pages/Trainings/Trainings.jsx:246 | the viewed drills as the export reads them: one record entry per drill, in order |
| Trainings.ViewedExportAsWritten | src/pages/Trainings/Trainings.jsx:246 | the view dialog's export as written: the viewed session goes to the list's export, whose look-up now receives records |
| Trainings.RecordsNotFound | src/pages/Trainings/Trainings.jsx:157 | `d.id === record` never holds, so records look up to nothing |
| Trainings.ViewedExportDropsDrills | src/pages/Trainings/Trainings.jsx:157-174 | exporting from the view dialog as written gives the document of no drills: no titles at all |
| Trainings.ViewedExportMatchesList | src/pages/Trainings/Trainings.jsx:157-174 | the intended export of the viewed drills is the list export's document of the same session, titled `1. name`, `2. name`, … |
| Trainings.TrainingsPage.constructor | src/pages/Trainings/Trainings.jsx:11-13 | the page starts with the stored sessions, no session in the view dialog, and the usage tally of the stored sessions, taken once (:104-111) |
| Trainings.TrainingsPage.HandleDelete | src/pages/Trainings/Trainings.jsx:24-28 | every session with the id is dropped, the others kept in order, and the result is written to storage; the dialog and the usage counts are unchanged |
| Trainings.TrainingsPage.HandleEdit | src/pages/Trainings/Trainings.jsx:30-35 | the cart is cleared and then holds the session's resolved drills added one by one |
| Trainings.TrainingsPage.HandleView | src/pages/Trainings/Trainings.jsx:84-87 | the dialog holds the session with its drills resolved; the session list and the usage counts are unchanged |
| Trainings.TrainingsPage.CloseView | src/pages/Trainings/Trainings.jsx:89 | the dialog is closed; the session list and the usage counts are unchanged |
| Trainings.TrainingsPage.ExportViewed | src/pages/Trainings/Trainings.jsx:246 | no viewed session, no file; otherwise the file named after it with the document of the drills it shows |
| Trainings.TrainingsPage.ExportPdf | src/pages/Trainings/Trainings.jsx:115-177 | no session, no file; otherwise the file named after the session holding the document of its resolved drills |
| Shared.BeforeFirstDash | src/pages/Trainings/SharedTraining.jsx:53 | `split('-')[0]`: the longest dash-free prefix, followed by a dash or the end |
| Shared.SharedId | src/pages/Trainings/SharedTraining.jsx:52-54 | `parseInt` of the part before the first dash; its laws are `Shared.ShareIdRoundTrip` and `Shared.NegativeIdNotRecovered` |
| Shared.LoadShared | src/pages/Trainings/SharedTraining.jsx:48-69 | no session when storage is unreadable, the route has no number, or no session has it; otherwise the first stored session with that id, its ids resolved |
| Shared.BeforeFirstDashAppend | src/pages/Trainings/SharedTraining.jsx:53 | the part before the first dash of a dash-free text followed by a dash is that text |
| Shared.ShareIdRoundTrip | src/pages/Trainings/SharedTraining.jsx:52-55 | for a non-negative id, parsing the route written by the share link gives the id back, whatever slug follows |
| Shared.NegativeIdNotRecovered | src/pages/Trainings/SharedTraining.jsx:53-54 | a negative id is not recovered: its own minus sign is taken as the separator |
| Shared.ShareLinkOpensSession | src/pages/Trainings/Trainings.jsx:50-52 | the link made for an existing session opens that session |
| Shared.ShareUrlOpensSession | src/pages/Trainings/Trainings.jsx:50-52 | the full link made for a session with a non-negative id, cut after the origin and `/share/`, opens that session |
| Shared.InitialIdxs | src/pages/Trainings/SharedTraining.jsx:60-62 | every drill of the session gets picture index 0, and no other key exists |
| Shared.StartIdxs | src/pages/Trainings/SharedTraining.jsx:60-62 | picture index 0 for each drill of the loaded session; its law is `Shared.InitialIdxs` |
| Shared.SharedPage.constructor | src/pages/Trainings/SharedTraining.jsx:48-69 | the page holds the loaded session and picture index 0 for each of its drills, nothing dragged |
| Shared.SharedPage.DragStart | src/pages/Trainings/SharedTraining.jsx:32 | the dragged index is set; the session, picture indexes, save name, save dialog and message are unchanged |
| Shared.SharedPage.HandleDrop | src/pages/Trainings/SharedTraining.jsx:34-45 | the drills become the dropped order, nothing when no index is dragged or it is the drop index, and the dragged index is cleared; picture indexes, save name, save dialog and message are unchanged |
| Shared.SharedPage.StepImage | src/pages/Trainings/SharedTraining.jsx:179-180 | only the drill's picture index changes, to next or previous; the session, dragged index, save name, save dialog and message are unchanged |
| Shared.SharedPage.Save | src/pages/Trainings/SharedTraining.jsx:234-251 | a blank name is refused; an unreadable store fails; otherwise one record with the displayed ids in order is appended; the dragged index and picture indexes are unchanged |
| Shared.SharedPage.ExportPdf | src/pages/Trainings/SharedTraining.jsx:90-142 | no session, no file; otherwise `<name or training>.pdf` with the document of the displayed drills |
| Session.ElementsCount | src/pages/TrainingSession/TrainingSession.jsx:131 | a duplicate-free prefix of `i` elements has `i` members |
| Session.SortedRank | src/pages/TrainingSession/TrainingSession.jsx:131 | in a sorted tag list, the tags sorting before the `i`-th are the first `i` |
| Session.TagColors | src/pages/TrainingSession/TrainingSession.jsx:126-133 | every catalogue tag, and nothing else, gets `palette[rank % 6]`, its rank being the number of tags sorting before it |
| Session.GetTextColor | src/pages/TrainingSession/TrainingSession.jsx:135-143 | the text colour is black or white, and black for a missing colour |
| Session.Contrast | src/pages/TrainingSession/TrainingSession.jsx:141-142 | black or white; a component that does not parse makes the comparison fail, so white; with all three parsed, black exactly when `299·r + 587·g + 114·b >= 128000` |
| Session.TextColorOfHex | src/pages/TrainingSession/TrainingSession.jsx:137-142 | for `#rrggbb` the text is black exactly when `299·r + 587·g + 114·b >= 128000` for the three hex bytes |
| Session.PaletteEntry | src/pages/TrainingSession/TrainingSession.jsx:129-142 | a palette colour's text colour is the contrast of its three bytes |
| Session.PaletteTextColor | src/pages/TrainingSession/TrainingSession.jsx:129-142 | on the palette, tags 4 and 5 (`#6b8bb3`, `#d47968`) get black text, the others white |
| Session.SessionPage.constructor | src/pages/TrainingSession/TrainingSession.jsx:9-83 | nothing dragged, the default save name, no message, no picture indexes |
| Session.SessionPage.DragStart | src/pages/TrainingSession/TrainingSession.jsx:13-16 | the dragged index is set; the name, the save dialog, the message and the thumbnail indexes are unchanged, and the cart is not touched |
| Session.SessionPage.HandleDrop | src/pages/TrainingSession/TrainingSession.jsx:23-29 | the cart is reordered only when an index is dragged and differs from the drop index; the dragged index is cleared; the save dialog and message are unchanged |
| Session.SessionPage.HandleSave | src/pages/TrainingSession/TrainingSession.jsx:59-80 | a blank name is refused; an unreadable store fails; otherwise the cart's ids are appended under the trimmed name and the name field is cleared |
| Session.SessionPage.StepThumb | src/pages/TrainingSession/TrainingSession.jsx:84-99 | only the drill's thumbnail index changes, to next or previous; the save dialog and message are unchanged |
| DataEntry.MaxId | src/pages/DataEntry/DataEntry.jsx:8 | the reduce gives a value that is at least 0 and every id, and is 0 or an existing id |
| DataEntry.NextId | src/pages/DataEntry/DataEntry.jsx:7-10 | the next id is at least 1, above every id, not taken, and 1 or one more than an existing id |
| DataEntry.NextIdLeast | src/pages/DataEntry/DataEntry.jsx:7-10 | it is the least positive value above every id |
| DataEntry.RemoveAll | src/pages/DataEntry/DataEntry.jsx:111 | the value is gone and every other value keeps its membership |
| DataEntry.RemoveAllCounts | src/pages/DataEntry/DataEntry.jsx:108-113 | every other value keeps its count, so only the occurrences of the value are dropped |
| DataEntry.RemoveAllAppend | src/pages/DataEntry/DataEntry.jsx:111 | removal keeps the order of the rest |
| DataEntry.RemoveAllAbsent | src/pages/DataEntry/DataEntry.jsx:111 | removing an absent value changes nothing |
| DataEntry.Toggled | src/pages/DataEntry/DataEntry.jsx:60-67 | the item's membership flips, other values keep theirs, and an absent item is appended at the end |
| DataEntry.ToggleTwice | src/pages/DataEntry/DataEntry.jsx:79-86 | toggling an absent item twice gives the list back |
| DataEntry.TogglePresent | src/pages/DataEntry/DataEntry.jsx:60-67 | toggling a present item removes all its occurrences and keeps the counts of the others |
| DataEntry.AppendTrimmed | src/pages/DataEntry/DataEntry.jsx:69-77 | blank input changes nothing, otherwise one entry is appended after the old list |
| DataEntry.AppendedIsTrimmed | src/pages/DataEntry/DataEntry.jsx:73 | the appended entry is the trimmed input, which trimming again keeps |
| DataEntry.AppendKeepsDuplicates | src/pages/DataEntry/DataEntry.jsx:88-96 | an entry already present is appended once more: duplicates are not filtered |
| DataEntry.ParseOr | src/pages/DataEntry/DataEntry.jsx:121 | `parseInt(s) \|\| fallback`: the fallback for no number or 0, otherwise the number; non-zero when the fallback is |
| DataEntry.GenerateDrill | src/pages/DataEntry/DataEntry.jsx:115-126 | the record has the next id, the trimmed texts, the lists as entered, the duration or 0, and a non-zero intensity |
| DataEntry.GeneratedNumbers | src/pages/DataEntry/DataEntry.jsx:121-125 | numbers typed as decimal text come back as those numbers, except intensity 0, which becomes 1 |
| DataEntry.GeneratedDefaults | src/pages/DataEntry/DataEntry.jsx:39-48 | an empty duration gives 0 and the initial intensity gives 1 |
| DataEntry.GeneratedIsNew | src/pages/DataEntry/DataEntry.jsx:115-126 | the generated id is not in the catalogue and the texts are already trimmed |
| DataEntry.WithField | src/pages/DataEntry/DataEntry.jsx:55-58 | the named field reads back the value, every other field reads as before, and the three lists are unchanged |
| DataEntry.FieldOf | src/pages/DataEntry/DataEntry.jsx:39-48 | the text field of the form that `name` selects |
| DataEntry.DataEntryPage.constructor | src/pages/DataEntry/DataEntry.jsx:7-53 | the next id, the three sorted vocabularies holding exactly the catalogue's values, the initial form and empty inputs |
| DataEntry.DataEntryPage.HandleChange | src/pages/DataEntry/DataEntry.jsx:55-58 | the form takes the value for that field; inputs and output unchanged |
| DataEntry.DataEntryPage.ToggleEquipment | src/pages/DataEntry/DataEntry.jsx:60-67 | the equipment list is toggled and the rest of the form kept; the three inputs and the output are unchanged |
| DataEntry.DataEntryPage.ToggleTag | src/pages/DataEntry/DataEntry.jsx:79-86 | the tag list is toggled and the rest of the form kept; the three inputs and the output are unchanged |
| DataEntry.DataEntryPage.AddCustomEquipment | src/pages/DataEntry/DataEntry.jsx:69-77 | the trimmed input is appended when not blank and the input then cleared; blank input changes nothing |
| DataEntry.DataEntryPage.AddCustomTag | src/pages/DataEntry/DataEntry.jsx:88-96 | the same for tags |
| DataEntry.DataEntryPage.AddPicture | src/pages/DataEntry/DataEntry.jsx:98-106 | the same for pictures |
| DataEntry.DataEntryPage.RemovePicture | src/pages/DataEntry/DataEntry.jsx:108-113 | every entry equal to the picture is removed, the others kept in order; the three inputs and the output are unchanged |
| DataEntry.DataEntryPage.GenerateJson | src/pages/DataEntry/DataEntry.jsx:115-130 | the output is the generated record of the form; the form and the three inputs are unchanged |
| DataEntry.DataEntryPage.ResetForm | src/pages/DataEntry/DataEntry.jsx:137-149 | the form is the initial one and the output is cleared; the three inputs are kept |
| DrillModal.IntensityValue | src/components/DrillCard/DrillModal.jsx:20 | a missing intensity counts as 0, a present one is its value |
| DrillModal.IntensityClass | src/components/DrillCard/DrillModal.jsx:21 | green, orange or red exactly for 1, 2 or 3, and empty exactly otherwise |
| DrillModal.Dots | src/components/DrillCard/DrillModal.jsx:102-104 | three dots, dot `i` active exactly when `i` is at most the intensity |
| DrillModal.DotClass | src/components/DrillCard/DrillModal.jsx:102-104 | the class of one dot: active and coloured when `i` is at most the intensity; its laws are `DrillModal.Dots` and `DrillModal.DotsActive` |
| DrillModal.DotsActive | src/components/DrillCard/DrillModal.jsx:102-104 | the active dots come first, and their number is the intensity clamped to 0..3 |
| DrillModal.IntensityLabel | src/components/DrillCard/DrillModal.jsx:105 | Licht, Gemiddeld or Zwaar exactly for 1, 2 or 3, and a dash exactly otherwise |
| DrillModal.IntensityViewsAgree | src/components/DrillCard/DrillModal.jsx:20-21 | the label is a dash exactly when the class is empty; active dots carry no colour outside 1..3; inactive dots are plain |
| DrillModal.UsageShown | src/components/DrillCard/DrillModal.jsx:43-47 | the shown count is the usage entry, or 0 when there is no usage map or no entry |
| DrillModal.UsageShownCounts | src/components/DrillCard/DrillModal.jsx:47 | with the usage map of the saved sessions the shown count is the drill's number of occurrences |
| DrillModal.AgeLabel | src/components/DrillCard/DrillModal.jsx:74 | the age group, or a dash when empty |
| DrillModal.DurationLabel | src/components/DrillCard/DrillModal.jsx:87 | `<n> min`, or a dash for a missing or zero duration |
| DrillModal.EquipmentShown | src/components/DrillCard/DrillModal.jsx:116-127 | the equipment list, or the single line saying no equipment is needed; never empty |
| DrillModal.Modal.constructor | src/components/DrillCard/DrillModal.jsx:4-6 | no drill, index 0, no toast |
| DrillModal.Modal.Show | src/components/DrillCard/DrillModal.jsx:14 | a new drill resets the picture index to 0 |
| DrillModal.Modal.Source | src/components/DrillCard/DrillModal.jsx:16-19 | nothing without a drill; the placeholder for a drill without pictures; with the index in range, the mapped image of the current picture when it has a non-empty entry, else the placeholder |
| DrillModal.Modal.Step | src/components/DrillCard/DrillModal.jsx:30-33 | with more than one picture the index moves to next or previous and stays in range |
| DrillModal.Modal.ButtonLabel | src/components/DrillCard/DrillModal.jsx:145 | "Verwijder uit training" exactly when the drill is in the cart, else "Voeg toe aan training" |
| DrillModal.Modal.ToggleCart | src/components/DrillCard/DrillModal.jsx:133-145 | a drill in the cart is removed, otherwise added; its membership flips, others keep theirs, and the toast says which happened |
| Button.TypeAsWritten | src/components/Button/Button.jsx:11-20 | the kind as computed is the lower-cased prop or `primary`, and the lower-cased prop when it is one of the four kinds |
| Button.TypeAsWrittenLetsThrough | src/components/Button/Button.jsx:14-20 | `ſecondary` passes the upper-case test and stays `ſecondary`, which is none of the four kinds |
| Button.ButtonType | src/components/Button/Button.jsx:7-20 | the kind is always one of the four: the lower-cased prop when valid, else `primary` |
| Button.LowerOfUpper | src/components/Button/Button.jsx:16 | for ASCII, lower-casing the upper case equals lower-casing |
| Button.LowerUpperNames | src/components/Button/Button.jsx:15 | the upper-case names lower-case to the four kinds |
| Button.TypeAgreesOnAscii | src/components/Button/Button.jsx:11-20 | on ASCII props the component's test and the intended one agree |
| Button.TypeIgnoresCase | src/components/Button/Button.jsx:11 | the kind of an ASCII prop does not depend on its case |
| Button.TypeIdempotent | src/components/Button/Button.jsx:11-20 | normalising a kind again changes nothing |
| Button.ButtonSize | src/components/Button/Button.jsx:12-24 | the size is always one of the five: the upper-cased prop when valid, else `M` |
| Button.SizeIdempotent | src/components/Button/Button.jsx:22-24 | normalising a size again changes nothing |
| Button.ClassNameShape | src/components/Button/Button.jsx:28 | the intended class name is `button <kind> size-<size>` for one of the four kinds and five sizes, and equals the component's for an ASCII type prop |
| Button.DefaultClassName | src/components/Button/Button.jsx:7-9 | without props both the component's and the intended class name are `button primary size-M` |
| Button.ClassNameAsWritten | src/components/Button/Button.jsx:28 | the component's class name from the kind as written; props already a kind and a size go through unchanged |
| Button.ClassNameAsWrittenLetsThrough | src/components/Button/Button.jsx:11-28 | `type="ſecondary"` gives the class name `button ſecondary size-M`, which names no kind |
| Button.ClassName | src/components/Button/Button.jsx:28 | the intended class name; props already a kind and a size go through unchanged |
| Cursus.ActionCaption | src/pages/Cursus/Cursus.jsx:57-68 | every action link has a non-empty caption |
| Cursus.TypeLabel | src/pages/Cursus/Cursus.jsx:19-26 | the three kinds, in any case, get their fixed labels; any other value is shown unchanged |
| Cursus.ItemKind | src/pages/Cursus/Cursus.jsx:38 | the kind is the lower-cased `type` when present, and empty when the item has none |
| Cursus.Href | src/pages/Cursus/Cursus.jsx:39-47 | for `int-doc` the bundled asset when present, else the public `/assets/cursusses/` path; for other kinds the data or empty |
| Cursus.DataText | src/pages/Cursus/Cursus.jsx:46 | `${item.data}` in a template: the data, or `undefined` when it is missing |
| Cursus.Links | src/pages/Cursus/Cursus.jsx:57-68 | the links of a kind, one per condition that holds; its law is `Cursus.OneLink` |
| Cursus.CardOf | src/pages/Cursus/Cursus.jsx:37-72 | one item's card: label, link target and actions; its law is `Cursus.CardShape` |
| Cursus.OneLink | src/pages/Cursus/Cursus.jsx:57-68 | exactly one link, and it is the one of the item's kind |
| Cursus.Cards | src/pages/Cursus/Cursus.jsx:37-72 | one card per item, in order |
| Cursus.CardShape | src/pages/Cursus/Cursus.jsx:50-69 | each card has one link and a fixed label or the item's own kind |
| Cursus.CardIgnoresCase | src/pages/Cursus/Cursus.jsx:38-68 | two items whose types agree up to case, with the same data, get the same label, target and links |
| Cursus.IntDocCard | src/pages/Cursus/Cursus.jsx:38-61 | an item typed `int-doc` in any case is labelled an internal document, has the single open-document link, and points at the bundled asset when there is one, else at the public `/assets/cursusses/` file |
| Pdf.BlockHeight | src/pages/Trainings/Trainings.jsx:171 | `max(34, 6·lines + 16)` |
| Pdf.Overflows | src/pages/Trainings/Trainings.jsx:172 | `cursorY > pageBottomLimit` after the block's height is added |
| Pdf.CoverSource | src/pages/Trainings/Trainings.jsx:133-135 | the first cover candidate in the image map, else the public `/cover.png` |
| Pdf.LogoSource | src/pages/Trainings/Trainings.jsx:150-152 | the first logo candidate in the image map, else the public `/basket-desselgem.png` |
| Pdf.FirstPresent | src/pages/Trainings/Trainings.jsx:150-151 | the first candidate present in the image map, or nothing when none is |
| Pdf.ImageSource | src/pages/Trainings/Trainings.jsx:164-165 | only the first picture: its mapped image, else its name, else the placeholder |
| Pdf.FileName | src/pages/Trainings/Trainings.jsx:175 | `<name>.pdf`, or `training.pdf` for an empty name |
| Pdf.DrawAll | src/pages/Trainings/Trainings.jsx:158-172 | drawing appends to the last page only |
| Pdf.DrawAllSnoc | src/pages/Trainings/Trainings.jsx:158-172 | drawing marks one by one equals drawing them together |
| Pdf.DrillStep | src/pages/Trainings/Trainings.jsx:158-173 | a loop step keeps the pages before the current one |
| Pdf.LayoutDrills | src/pages/Trainings/Trainings.jsx:155-173 | the loop keeps the pages before the start page |
| Pdf.LayoutFollowsCursor | src/pages/Trainings/Trainings.jsx:155-172 | the layout's cursor is the cursor machine's, and each break adds exactly one page |
| Pdf.CursorAfter | src/pages/Trainings/Trainings.jsx:171-172 | the cursor after a run of drills; its laws are `Pdf.LayoutFollowsCursor` and `Pdf.CursorStaysOnPage` |
| Pdf.CursorStaysOnPage | src/pages/Trainings/Trainings.jsx:155-172 | starting at 28, the cursor before every drill lies in `[28, 262]` |
| Pdf.PageCapacity | src/pages/Trainings/Trainings.jsx:171-172 | at most six drills follow the last break, so there are at most `7·breaks + 6` drills |
| Pdf.FlattenDrawAll | src/pages/Trainings/Trainings.jsx:158-172 | in reading order, drawing adds the marks at the end |
| Pdf.FlattenNewPage | src/pages/Trainings/Trainings.jsx:172 | a new page adds no mark |
| Pdf.LayoutMarks | src/pages/Trainings/Trainings.jsx:158-173 | in reading order the loop draws exactly its step marks |
| Pdf.TitlesAppend | src/pages/Trainings/Trainings.jsx:169 | titles of joined mark lists are joined |
| Pdf.StepTitles | src/pages/Trainings/Trainings.jsx:169 | a step draws exactly one title, numbered `i + 1` |
| Pdf.TitlesNumbered | src/pages/Trainings/SharedTraining.jsx:124-133 | the titles are `1. name`, `2. name`, … in input order |
| Pdf.SeparatorsAppend | src/pages/Trainings/Trainings.jsx:161 | separators of joined mark lists add up |
| Pdf.StepSeparators | src/pages/Trainings/Trainings.jsx:161 | a step draws a separator exactly when it is not the first drill |
| Pdf.SeparatorsBetweenDrills | src/pages/Trainings/SharedTraining.jsx:126 | there is one separator fewer than drills, also across page breaks |
| Pdf.PicturesOnPage | src/pages/Trainings/Trainings.jsx:167 | every picture's top lies in `[28, 262]` |
| Pdf.LogosAppend | src/pages/Trainings/Trainings.jsx:172 | logos of joined mark lists add up |
| Pdf.StepLogos | src/pages/Trainings/Trainings.jsx:172 | a step stamps a logo exactly when its block overflows and there is a logo |
| Pdf.StepKeepsLogos | src/pages/Trainings/Trainings.jsx:172 | a step keeps one logo on every finished page and none on the open one |
| Pdf.LayoutKeepsLogos | src/pages/Trainings/Trainings.jsx:158-173 | the loop keeps it too |
| Pdf.DocumentPages | src/pages/Trainings/Trainings.jsx:130-174 | the document has the cover page when asked, plus one page, plus one per break |
| Pdf.Document | src/pages/Trainings/Trainings.jsx:115-174 | the pages of the exported document; its laws are `Pdf.DocumentPages`, `Pdf.DocumentLogos`, `Pdf.TitlesNumbered` and `Pdf.SeparatorsBetweenDrills` |
| Pdf.DocumentLogos | src/pages/Trainings/Trainings.jsx:172-174 | with a logo, no logo on the cover and exactly one on every content page |
| Pdf.BlockCanPassLimit | src/pages/Trainings/Trainings.jsx:171-172 | a block is drawn before the overflow test, so a description of 41 lines runs to 290, past 262 |
| Pdf.PdfDocument.constructor | src/pages/Trainings/Trainings.jsx:118 | a new document has one empty page |
| Pdf.PdfDocument.AddPage | src/pages/Trainings/Trainings.jsx:147 | a new empty page at the end |
| Pdf.PdfDocument.Draw | src/pages/Trainings/Trainings.jsx:167-170 | the mark goes on the last page |
| Pdf.DrawBlock | src/pages/Trainings/Trainings.jsx:161-170 | the block's marks go on the last page |
| Pdf.DrawDrill | src/pages/Trainings/Trainings.jsx:158-172 | one iteration of the loop is one layout step |
| Pdf.NewDocument | src/pages/Trainings/Trainings.jsx:118-148 | the document starts with the cover and an empty page, or one empty page |
| Pdf.DrawDrills | src/pages/Trainings/Trainings.jsx:155-173 | the loop over the drills leaves the pages and the cursor the layout function gives |
| Pdf.GeneratePdf | src/pages/Trainings/SharedTraining.jsx:90-141 | no session, no file; otherwise the laid-out document under its file name |
| Seqs.Filter | src/contexts/CartContext.jsx:48 | `Array.prototype.filter`: an element is kept exactly when it is in the list and passes the test, never more elements |
| Seqs.FilterKeepsAll | src/contexts/CartContext.jsx:48 | a filter that every element passes gives the list back |
| Seqs.FilterSplits | src/pages/Trainings/Trainings.jsx:25 | the kept and the dropped elements together are the elements of the list |
| Seqs.Find | src/pages/Trainings/SharedTraining.jsx:55 | `Array.prototype.find`: nothing exactly when no element passes, else the first element that does |
| Seqs.Count | scripts/count_chars.js:5-11 | the number of occurrences of an element |
| Text.LeadingSpaces | src/pages/TrainingSession/TrainingSession.jsx:60 | the leading whitespace run |
| Text.TrailingSpaces | src/pages/TrainingSession/TrainingSession.jsx:60 | the trailing whitespace run |
| Text.TrimStart | src/pages/Trainings/SharedTraining.jsx:54 | a suffix that starts with a non-space, after a run of JavaScript whitespace |
| Text.Trim | src/pages/TrainingSession/TrainingSession.jsx:60 | the middle slice between the JavaScript whitespace runs; empty exactly when the text is all whitespace |
| Text.IsSpace | src/pages/TrainingSession/TrainingSession.jsx:60 | the characters `trim` removes: the ECMAScript white space and line terminators |
| Text.TrimIdempotent | src/pages/DataEntry/DataEntry.jsx:118-120 | trimming twice is trimming once |
| Text.ToLower | src/components/Button/Button.jsx:11 | character-wise lower case, same length |
| Text.ToUpper | src/components/Button/Button.jsx:12 | character-wise upper case, same length |
| Text.ToLowerIdempotent | src/components/Button/Button.jsx:11 | lower-casing twice is lower-casing once |
| Text.ToUpperIdempotent | src/components/Button/Button.jsx:12 | upper-casing twice is upper-casing once |
| Text.NatToString | src/pages/Trainings/Trainings.jsx:52 | the decimal text of a natural number: non-empty and made of digits |
| Text.IntToString | src/pages/Trainings/Trainings.jsx:52 | the decimal text: non-empty, a minus sign exactly for negatives, digits after |
| Text.NatToStringValue | src/pages/Trainings/Trainings.jsx:52 | the decimal text's digits have the number as value |
| Text.ParseDigits | src/pages/Trainings/SharedTraining.jsx:54 | `parseInt` of decimal digits is their value |
| Text.ParseNegativeDigits | src/pages/Trainings/SharedTraining.jsx:54 | `parseInt` of a minus sign and digits is the negated value |
| Text.ParseIntOfString | src/pages/DataEntry/DataEntry.jsx:121 | `parseInt` reads back the decimal text of a natural number |
| Text.ParseIntOfInt | src/pages/DataEntry/DataEntry.jsx:121-125 | `parseInt` reads back the decimal text of any integer |
| Text.JsParseInt | src/pages/Trainings/SharedTraining.jsx:54 | `parseInt`: leading white space, a sign, then digits of the radix; none when no digit follows; its laws are `Text.ParseDigits`, `Text.ParseNegativeDigits` and `Text.ParseIntOfInt` |
| Text.LexLess | src/pages/DataEntry/DataEntry.jsx:16 | the string order of the default `sort`: the first differing character decides, a proper prefix sorts first |
| Text.Substr | src/pages/TrainingSession/TrainingSession.jsx:138-140 | `substr` gives at most `len` characters, the slice when in range |
| Text.ParseHexPair | src/pages/TrainingSession/TrainingSession.jsx:138-140 | two hex digits parse to their byte |
| Text.HexPair | src/pages/TrainingSession/TrainingSession.jsx:138-140 | `parseInt(c.substr(start, 2), 16)`; its law is `Text.ParseHexPair` |
| Lines.LineEnd | scripts/find_unmatched.js:4 | the first line ends at the first line feed, or at the end |
| Lines.DropReturn | scripts/find_unmatched.js:4 | a carriage return before a line feed goes with it |
| Lines.SplitLines | scripts/count_chars.js:12 | at least one line, none holding a line feed |
| Lines.SplitLinesCount | scripts/count_chars.js:12 | one line more than line feeds |
| Lines.JoinSplit | scripts/brace_depth.js:4 | without carriage returns, joining the lines with line feeds gives the text back |
| Lines.JoinLines | scripts/brace_depth.js:4 | `join('\n')`, the inverse of the split; its law is `Lines.JoinSplit` |
| Lines.SplitKeepsCount | scripts/brace_depth.js:4 | every character but a line feed or carriage return occurs in the lines as often as in the text |
| CountChars.CountChars | scripts/count_chars.js:4-13 | each count is the number of occurrences of its character; lines are line feeds plus one |
| CountChars.TrackedBound | scripts/count_chars.js:4-11 | the seven counts together are at most the length of the text |
| CountChars.CountsIgnoreOrder | scripts/count_chars.js:5-6 | texts that are permutations of each other have the same counts |
| CountChars.CountsAppend | scripts/count_chars.js:5-12 | counts of joined texts add up, the line counts overlapping by one |
| BraceDepth.DepthCounts | scripts/brace_depth.js:11-12 | the depth is the number of `{` minus the number of `}` |
| BraceDepth.Depth | scripts/brace_depth.js:11-13 | the depth after a text; its laws are `BraceDepth.DepthCounts` and `BraceDepth.DepthSnoc` |
| BraceDepth.DepthGoesNegative | scripts/brace_depth.js:12-13 | the depth is not clamped: `}` gives -1 while the maximum stays 0 |
| BraceDepth.MaxDepth | scripts/brace_depth.js:6-13 | at least 0 and every prefix depth, and 0 or one of them |
| BraceDepth.DepthSnoc | scripts/brace_depth.js:11-13 | one more character adds its step, and the maximum takes the new depth in |
| BraceDepth.Cut | scripts/brace_depth.js:16 | `slice(0, 120)`: a prefix of at most 120 characters, the whole text when shorter |
| BraceDepth.RowsLength | scripts/brace_depth.js:15 | the first 40 lines are listed, then those among the last 39 |
| BraceDepth.RowsListed | scripts/brace_depth.js:15 | at most 79 lines are listed; shorter files in full |
| BraceDepth.Rows | scripts/brace_depth.js:15-16 | the listed rows; their laws are `BraceDepth.RowsLength`, `BraceDepth.RowsListed`, `BraceDepth.RowsNumbered` and `BraceDepth.RowsOrdered` |
| BraceDepth.RowsNumbered | scripts/brace_depth.js:15-16 | every row is a listed line with the depth after its last character |
| BraceDepth.RowsOrdered | scripts/brace_depth.js:7-16 | rows are in line order |
| BraceDepth.ScanLine | scripts/brace_depth.js:9-14 | the inner loop carries depth and maximum over one line |
| BraceDepth.Scan | scripts/brace_depth.js:4-19 | the final depth is the brace balance of the text, the maximum that of the lines, and the rows the listing |
| FindUnmatched.LastFive | scripts/find_unmatched.js:19 | `slice(-5)`: the last five entries, or all when fewer |
| FindUnmatched.ReportOf | scripts/find_unmatched.js:18-20 | "All braces matched" exactly when the stack is empty, extras or not; otherwise one to five last stack entries |
| FindUnmatched.RunLineBalance | scripts/find_unmatched.js:9-15 | each character moves stack size minus extras by its brace step |
| FindUnmatched.Step | scripts/find_unmatched.js:9-15 | one character: `{` pushes its position, `}` pops or, on an empty stack, is reported as extra; its law is `FindUnmatched.RunLineBalance` |
| FindUnmatched.RunLines | scripts/find_unmatched.js:7-17 | the scan of the first `i` lines from an empty stack; its laws are `FindUnmatched.RunLinesBalance` and `FindUnmatched.RunLinesOrdered` |
| FindUnmatched.Unmatched | scripts/find_unmatched.js:4-17 | the scan of the whole text; its laws are `FindUnmatched.StackSize` and `FindUnmatched.UnmatchedInOrder` |
| FindUnmatched.DepthAppend | scripts/find_unmatched.js:7-17 | brace balances of joined texts add up |
| FindUnmatched.RunLinesBalance | scripts/find_unmatched.js:7-17 | after each line the stack exceeds the extras by the balance of the text read |
| FindUnmatched.StackSize | scripts/find_unmatched.js:5-17 | unmatched openings = `#{` − (`#}` − extras) |
| FindUnmatched.RunLineOrdered | scripts/find_unmatched.js:8-15 | within a line the stack holds `{` positions and the extras `}` positions, both in text order, all before the cursor |
| FindUnmatched.RunLinesOrdered | scripts/find_unmatched.js:7-17 | the same across lines, with 1-based line and column |
| FindUnmatched.UnmatchedInOrder | scripts/find_unmatched.js:10-17 | the final stack lists opening braces in source order, the extras closing braces in source order |
| FindUnmatched.MatchedDespiteExtra | scripts/find_unmatched.js:12-20 | a lone `}` is reported as extra at 1:1 and the result is still "All braces matched" |
| FindUnmatched.ScanLine | scripts/find_unmatched.js:9-15 | the inner loop is the scan of one line |
| FindUnmatched.Scan | scripts/find_unmatched.js:4-20 | the nested loops compute the scan of the text; the report is all-matched exactly when the stack is empty, else its last five |

## Left out

- **Rendering.** React rendering, routing, layout, CSS, keyboard handling (Escape), drag
  events beyond their indices, and the pages with no logic: the app shell, header, layout,
  home page, demo files, dropdown.
- **Browser effects.** `localStorage` is a class holding the parsed list or `None` for a blob
  that does not parse. `JSON.stringify`, the clipboard, `window.prompt`, `alert`, timers and
  console output are not modelled.
- **Toasts.** The toast callback of the modal is only a flag saying whether one is given.
- **Clock.** `Date.now()` and the "tomorrow" default save name are parameters (`now`,
  `defaultName`); `now` becomes the saved record's id. The `createdAt` timestamp
  (`toISOString`, TrainingSession.jsx:69, SharedTraining.jsx:244, shown at Trainings.jsx:193)
  is dropped from the saved record: no operation of the model reads it.
- **jsPDF.** Drawing is a list of abstract marks per page. `splitTextToSize` is a parameter
  giving the wrapped line count of a description. Image loading and rescaling (`Image`,
  `canvas`, floating point) are left out. The picture placed is the source chosen, and
  `hasLogo`/`coverFails` say whether the logo exists and whether the cover image is refused.
- **Asset maps.** `require.context` asset maps are a given `map` from file name to source.
- **Unicode.** Strings are sequences of code points, while JavaScript strings are sequences
  of UTF-16 units. Three results differ for text outside the Basic Multilingual Plane:
  `Text.LexLess` compares code points where `sort()` compares UTF-16 units;
  `FindUnmatched` columns count code points where `line[j]` counts UTF-16 units; and
  `BraceDepth.Cut` keeps 120 code points where `slice(0, 120)` keeps 120 UTF-16 units. Case
  mapping covers ASCII only, plus the two non-ASCII letters whose upper case is an ASCII
  letter (long s, dotless i). White space for `trim` and `parseInt` is the full ECMAScript
  set. `normalize('NFKD')` is not modelled, and slug properties are stated for the resulting
  character classes.
- **Picture index past the list.** A stored index beyond the pictures makes JavaScript read
  the map at `undefined`; the model shows the placeholder there, and `DrillModal.Modal.Source`
  states the result only for an index in range.
- **parseInt.** It reads integers of any size. Values beyond 2^53, which lose precision
  in JavaScript, are not modelled.
- **Shared.NegativeIdNotRecovered:** negative share ids do not round-trip. This is shown
  rather than hidden; share ids are timestamps.
- **isArray guards.** The `Array.isArray` guards on catalogue fields are not modelled:
  catalogue records are typed, so `equipment` and `tags` are always lists.
- **Picture index.** The modal resets the picture index in an effect after rendering. The
  model resets it as part of `Show`, so the render with a stale index is not modelled.
- **DrillModal.UsageShown:** its contract does not single out a stored count of 0. Such an
  entry cannot arise from the usage tally.
- **Catalogue.** The catalogue is a parameter, not the bundled `drills.json`.

## Findings

| source | as written | input that shows it | evidently intended | confidence | as-written member | corrected member |
|---|---|---|---|---|---|---|
| src/components/Button/Button.jsx:11-20 | the prop is lower-cased, but validity is checked on the upper case of that, and the lower-cased prop is kept | `type = "ſecondary"` (long s, U+017F): it is already lower case and upper-cases to `SECONDARY`, so the class name becomes `button ſecondary size-M` | the kind is one of `primary`, `secondary`, `tertiary`, `ghost` | not executed | Button.TypeAsWritten, Button.TypeAsWrittenLetsThrough, Button.ClassNameAsWritten, Button.ClassNameAsWrittenLetsThrough | Button.ButtonType, Button.ClassName, Button.ClassNameShape |
| src/pages/Trainings/Trainings.jsx:246 | the view dialog's export button passes the viewed session, whose drills are already records, to the list's export, which looks them up again with `drillsData.find(d => d.id === id)` (Trainings.jsx:157) | any stored session with known drills, exported from the view dialog: no record equals a number, so the PDF holds no drill | the PDF of the drills the dialog shows, as the list's export gives it | not executed | Trainings.ViewedExportAsWritten, Trainings.ViewedExportDropsDrills | Trainings.TrainingsPage.ExportViewed, Trainings.ViewedExportMatchesList |
