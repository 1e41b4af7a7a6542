# trailBid allocation engine in Dafny

trailBid runs the bidding for trails at a hash weekend. Hashers bid integer values on trails. Each trail belongs to one time slot and holds a limited number of hashers.

A run proceeds in four steps:

1. Every hasher draws a random order, and `rank = sequence * sequence * order`.
2. Each time slot draws fresh ranks for its own bidders and merges the bids on its trails into one list.
3. That list is sorted once by the six-part "equitable" key.
4. Every bid is tried once, in that order. A bid wins when its trail is below capacity and its hasher has no win yet in that time slot.

The winner lands in both the trail's and the hasher's successful bids.

This project models that engine as imperative Dafny over classes with the source's own fields, and proves what the engine promises about it. Around the engine it also models the smaller support code:

- the calendar pass that links trails to time slots;
- the `Params` dictionary wrapper;
- the case-insensitive settings store and its `key = value` file reader;
- the plural, underline and heading helpers;
- the deterministic bid-template generators.

Modules follow the program:

| module | file | what it holds |
|---|---|---|
| `Text` | text.dfy | Python's `strip` (all of `str.isspace`), `lower` (ASCII letters only), `split`, `join`, integer literals with ASCII digits, and decimal text |
| `Order` | order.dfy | tuple keys compared as Python compares them; the stable sort `list.sort(key=...)`, written as an insertion sort; `random.shuffle`, written as a Fisher–Yates shuffle |
| `Allocation` | allocation.dfy | the award rule on an abstract ledger of successful bids, and the properties of trying claims in order |
| `Entities` | entities.dfy | the classes of bid.py, trail.py, hasher.py and `TimeSlot` (these modules import each other) |
| `Slots` | slots.dfy | `TimeSlots`: loading, `add`, `getById`, `sortBySequence`, `runBid` |
| `Driver` | driver.dfy | `TrailBid.runBid` and the heading text of `printResultByHasher` |
| `Calendar` | calendar.dfy | the row loop of tb_calendar.py |
| `Params`, `Settings`, `Resource`, `Generate` | params.dfy, settings.dfy, resource.dfy, generate.dfy | param.py, setting.py, resource.py and generate.py |

Every bid collection is a `Bids` object. It holds the list, and the three index dictionaries over hasher id, stripped trail id and time-slot id. The model also keeps two ghost sequences:

- `inserted`, the bids in the order they were added;
- `slotKeys`, the time-slot id each bid was filed under when it was added.

These exist because the dictionaries follow insertion order while the list is sorted in place. Ghost `role` and `owner` tags name the object that created each collection. From these tags the model proves that the collections of different trails and hashers are different objects.

The random stream is a parameter. `random.shuffle` becomes a Fisher–Yates shuffle whose swap partner at each step is read from a sequence of naturals. Partners wrap modulo the remaining length, and a missing value counts as 0, so every permutation is reachable and no stream is rejected. Each time slot gets its own stream. CSV files arrive as rows already split into fields, and the settings file as its lines. Printing is left out; only the heading texts are modelled.

## Model

| member | source | states |
|---|---|---|
| Text.StripSlice | trail.py:32 | `strip()` returns a contiguous slice of its input, everything cut off is whitespace (every character `str.isspace()` accepts, Unicode spaces and line separators included), and the result neither starts nor ends with whitespace |
| Text.StripIdempotent | bid.py:223 | stripping an id that is already stripped changes nothing, so ids stored stripped are found again under their stripped spelling |
| Text.Lower | setting.py:24 | lowering keeps the length and lowers each character on its own; characters outside A–Z are kept |
| Text.LowerIdempotent | setting.py:30 | a lowered key lowers to itself |
| Text.Split | setting.py:52 | `split` yields at least one part, and no part contains the separator |
| Text.JoinSplit | setting.py:52-55 | joining the parts of a split with the separator gives back the line |
| Text.SplitAtFirst | setting.py:54-55 | the first part is the text before the first separator, and the other parts rejoined are the text after it |
| Text.FirstIndex | setting.py:54 | the index of the first occurrence of a character: it is there, and nowhere before |
| Text.DecimalRoundTrip | generate.py:36-38 | the decimal text of a natural reads back as that natural |
| Text.IntRoundTrip | timeSlot.py:225 | the text `str(i)` of every integer is an integer literal, and `int(...)` reads it back as `i` |
| Text.ZeroPaddedValue | generate.py:38 | `{:04d}` text is all digits and reads back as the number it pads |
| Order.KeyLessIrreflexive | bid.py:412-418 | no key tuple is smaller than itself |
| Order.KeyLessTransitive | bid.py:412-418 | tuple comparison, element by element with numbers below texts, is transitive |
| Order.KeyLessTotal | bid.py:412-418 | of two different key tuples one is smaller, so the sort order is total |
| Order.StrLessTotal | trail.py:471-473 | string comparison is total on different strings |
| Order.InsertSorted | bid.py:412-418 | inserting into a sorted list keeps it sorted |
| Order.SortKeyedSorted | bid.py:412-418 | the stable sort leaves the keys in non-decreasing order |
| Order.SortKeyedStable | bid.py:412-418 | entries with equal keys keep their relative order through the sort |
| Order.SortKeyedKeeps | bid.py:412-418 | the sort is a permutation of its input |
| Order.SortByFacts | bid.py:412-418 | sorting items by precomputed keys permutes the items, and lists them as a sorted arrangement of the (key, item) pairs |
| Order.SortByLeadingNumbers | hasher.py:354-360 | when every key starts with a number taken from the item, the sorted items have that number non-decreasing |
| Order.SortByLeadingTexts | hasher.py:364-370 | when every key starts with a text taken from the item, the sorted items have that text non-decreasing |
| Order.SortByMappedNumbers | hasher.py:393 | the same when the leading number is read from a map fixed before the sort |
| Order.Draw | hasher.py:425 | a shuffle's swap partner for position `i` is at most `i`, whatever the stream holds |
| Order.Swap | hasher.py:425 | exchanging two positions permutes the list and leaves every other position alone |
| Order.ShuffledPermutes | hasher.py:425 | `random.shuffle` keeps the length and the multiset of the list, for every stream of draws |
| Order.StepsKeepAbove | hasher.py:425 | the shuffle's step at position `i` never touches a position above `i` |
| Order.ShuffledLast | hasher.py:425 | the last position receives the element its draw chose |
| Allocation.ApplyAt | bid.py:107-110 | trying one claim appends the bid to its trail's and its hasher's wins, and the slot id to the hasher's slots, exactly when the award rule grants it; every other entry is untouched |
| Allocation.RunAppend | bid.py:373-374 | trying `a` and then `b` is trying `a + b`: each bid is tried once in list order |
| Allocation.RunWithinCapacity | bid.py:107 | trying claims never takes a trail above its capacity, unless it started above it |
| Allocation.RunKeepsSlotsDistinct | bid.py:108 | trying claims never gives a hasher a second win in the same time slot |
| Allocation.RunTrailWins | bid.py:109 | a trail's wins afterwards are its wins before, followed by the winning bids on it in processing order |
| Allocation.RunHasherWins | bid.py:110 | a hasher's wins afterwards are its wins before, followed by its winning bids in processing order, with one slot id per win |
| Allocation.TrailWonFromClaims | bid.py:107-109 | every bid won on a trail comes from a claim on that trail that won when it was tried |
| Allocation.HasherWonFromClaims | bid.py:107-110 | every bid a hasher won comes from a claim of that hasher that won when it was tried |
| Allocation.TrailWinsGrow | bid.py:109 | a trail's wins only grow as claims are tried |
| Allocation.LoserHeldSlot | bid.py:107-108 | if a bid on a trail lost and a later bid on that trail won, the trail had room when the loser was tried, so its hasher already held a win in that slot |
| Allocation.OutbidOnlyBySlot | bid.py:107-108 | in an order of descending value, if a bid lost while a lower-valued bid won on the same trail, then the loser came first and its hasher already held a win in that slot; capacity is never the reason |
| Entities.HasherIndexLookup | bid.py:219-222 | `hasherBids` holds under each id exactly that hasher's bids in insertion order, and holds an id only when some bid has it |
| Entities.TrailIndexLookup | bid.py:223-226 | `trailBids` holds under each stripped trail id exactly the bids on it in insertion order, and holds an id only when some bid has it |
| Entities.SlotIndexLookup | bid.py:227-230 | `timeSlotBids` holds under each slot id exactly the bids filed under it in insertion order, and holds an id only when some bid has it |
| Entities.SlotIndexKeys | bid.py:227-230 | a slot id is in the index exactly when some bid was filed under it |
| Entities.SumValuesPermutation | bid.py:204-207 | reordering bids keeps their total value, so sorting does not change `value` |
| Entities.MinValue | bid.py:184-193 | the minimum is one of the values and at most every value |
| Entities.MaxValue | bid.py:184-193 | the maximum is one of the values and at least every value |
| Entities.UniqueTrailsStep | bid.py:306-310 | collecting trails appends a bid's trail unless a trail with its id is already there |
| Entities.FiltersWithin | bid.py:242-274 | the three filters keep only bids of the collection with the key asked for |
| Entities.SortedByValue | bid.py:412-413 | sorting by keys that begin with `-value` leaves the bid values descending |
| Entities.Bid.constructor | bid.py:28-31 | a bid holds its hasher, its trail and its value |
| Entities.Bid.RunBid | bid.py:97-110 | the bid wins exactly when its trail is below capacity and its hasher is not attending that slot; a winning bid is appended to the trail's and the hasher's successful bids and filed under the slot id; a losing bid changes nothing; no other trail's or hasher's wins change, and the ledger of all wins is the award rule applied to it |
| Entities.Bid.FileWithTrail | bid.py:109 | `trail.addSuccessfulBid(self)` appends to that trail's successful bids only |
| Entities.Bid.FileWithHasher | bid.py:110 | `hasher.addSuccessfulBid(self)` appends to that hasher's successful bids only |
| Entities.Bids.constructor | bid.py:123-130 | a new collection is empty, with empty indexes |
| Entities.Bids.BookendValues | bid.py:184-193 | `(None, None)` exactly when empty; otherwise the lowest and the highest value, each one of the bids' values |
| Entities.Bids.ValueTotals | bid.py:423-429 | `value` is the total of every bid added, whatever order the list now holds; `valueByTimeSlotId` is the total of exactly the bids filed under that slot id, and 0 when none was |
| Entities.Bids.Add | bid.py:211-230 | appends the bid with no duplicate check, and files it under its hasher id, stripped trail id and the slot id of its trail, keeping the indexes consistent with the list |
| Entities.Bids.Merge | bid.py:326-332 | every bid of the argument is added, in order |
| Entities.Bids.AddNext | bid.py:330-331 | one turn of the loop: the next bid is appended to the list and filed under the slot id of its trail |
| Entities.Bids.GetBids | bid.py:234-238 | a fresh, loose collection with the same bids in the same order |
| Entities.Bids.GetBidsByHasherId | bid.py:242-249 | a fresh collection of exactly that hasher's bids in insertion order; empty for an unknown id; the collection itself is unchanged |
| Entities.Bids.GetBidsByTimeSlotId | bid.py:253-261 | a fresh collection of exactly the bids filed under that slot id, in insertion order |
| Entities.Bids.GetBidsByTrailId | bid.py:265-274 | a fresh collection of exactly the bids on that stripped trail id, in insertion order |
| Entities.Bids.GetTrailsByTimeSlotId | bid.py:302-311 | a fresh trail collection with the trails of the bids filed under the slot id, once per trail id, in order of first bid |
| Entities.Bids.CollectTrails | bid.py:306-310 | the loop over those bids adds each trail whose id is not yet present |
| Entities.Bids.GetHashers | bid.py:315-322 | a fresh hasher collection with the bids' hashers, once per id, in order of first bid |
| Entities.Bids.SortEquitably | bid.py:390-419 | the new list is the stable sort of the old list by `(-value, hasher wins, hasher bids, hasher rank, trail bids, trail id)`, with every key computed before the sort; it is a permutation; the indexes are unchanged |
| Entities.Bids.RunBid | bid.py:368-374 | sort equitably, then try each bid once in the sorted order: the wins end as the award rule run over the sorted list leaves them; values are tried in descending order; capacity and one-win-per-slot limits that held still hold; submitted wins stay submitted |
| Entities.Bids.TryInOrder | bid.py:373-374 | the loop tries every bid once, front to back, and changes no bid's claim while doing so |
| Entities.Trail.constructor | trail.py:31-39 | the id and name stripped, no time slot, and empty submitted and successful bids, so bid count and bid value are 0 |
| Entities.Trail.SetTimeSlot | trail.py:84-104 | a slot is assigned when none is set or when clearing; any other assignment, the same slot included, raises `DuplicateError` and keeps the slot |
| Entities.Trail.GetBids | trail.py:125-127 | a fresh copy of the submitted bids |
| Entities.Trail.GetHashers | trail.py:141-143 | the hashers of the submitted bids, once per id, in order of first bid |
| Entities.Trail.RunBid | trail.py:233-260 | as written: the bids are sorted equitably, and the call raises `AttributeError` exactly when there are bids and room; otherwise it returns normally having awarded nothing |
| Entities.Trail.AddBid | trail.py:108-112 | appends to the submitted bids only |
| Entities.Trail.AddSuccessfulBid | trail.py:116-121 | appends to the successful bids only |
| Entities.TrailRunIntendedSafe | trail.py:246-260 | the intended per-trail loop never takes the trail past its capacity, never gives a hasher two places on it, and never gives a hasher a second win in the slot |
| Entities.TryOnTrailSafe | trail.py:247-255 | one bid of the intended loop, tried on a trail with room, keeps all three limits |
| Entities.Hasher.constructor | hasher.py:40-48 | order starts as the sequence and rank as the order; no bids and no wins, so every count is 0 |
| Entities.Hasher.AddBid | hasher.py:84-102 | a bid object already in the list (identity, since `Bid` defines no equality) raises `NameError`, because the error branch names undefined variables, and keeps the list; otherwise the bid is appended; the advisory fires exactly when the slot's total crosses from at most the allowance to above it |
| Entities.Hasher.AddSuccessfulBid | hasher.py:106-111 | appends to the hasher's successful bids only |
| Entities.AttendingIffFiled | hasher.py:115-123 | a hasher attends a slot exactly when one of its wins was filed under that slot's id |
| Entities.RunStaysWithin | bid.py:107-110 | trying bids in order keeps every trail within capacity and every hasher at one win per slot |
| Entities.RunWinsSubmitted | bid.py:372-374 | trying submitted bids only awards bids submitted to that trail and by that hasher |
| Entities.SubmittedKept | bid.py:412-418 | reordering keeps every bid among its trail's and hasher's submissions |
| Entities.SortedByBidValue | trail.py:471-473 | sorting trails by `(-bidValue, bidCount, id)` leaves total bid values descending |
| Entities.Trails.constructor | trail.py:273-279 | a new trail collection is empty |
| Entities.Trails.GetById | trail.py:369-373 | the stored trail with that id, or `None` exactly when no listed trail has it |
| Entities.Trails.IdsDistinct | trail.py:329-340 | two listed trails never share an id |
| Entities.Trails.Add | trail.py:329-340 | a new id is appended and recorded; a known id raises `DuplicateError` and changes neither the list nor the dictionary |
| Entities.Trails.AddUnique | trail.py:344-354 | never raises; adds the trail exactly when its id is new |
| Entities.Trails.AddIfAbsent | bid.py:309-310 | `add` guarded by `getById`: the trail is added exactly when its id is new |
| Entities.Trails.GetBids | trail.py:358-365 | a fresh collection of all the trails' submitted bids, trail after trail |
| Entities.Trails.GetHashers | trail.py:377-385 | a fresh collection of the hashers who bid on the trails, once per id, in order of first bid |
| Entities.AddUniqueOfUnique | trail.py:382-384 | merging the hashers of each trail in turn gives the hashers of all their bids |
| Entities.AddUniqueHasId | hasher.py:252-262 | after `addUnique` over a list, an id is present exactly when it was present before or some hasher of the list has it |
| Entities.Trails.GetTrailsByTimeSlotId | trail.py:389-398 | a fresh collection of exactly the trails linked to that slot id, in list order |
| Entities.PickSlotMembers | trail.py:393-397 | the selection keeps exactly the trails whose slot id matches |
| Entities.Trails.SortByBidValue | trail.py:463-474 | the stable sort by `(-bidValue, bidCount, id)`, a permutation; total bid values end descending; the list is returned |
| Entities.Trails.SortBySequence | trail.py:478-486 | the stable sort by sequence, a permutation, sequences ascending; the list is returned |
| Entities.Trails.RunBid | trail.py:454-459 | sorts by bid value, then runs each trail's `runBid`: raises `AttributeError` exactly when some trail has bids and room |
| Entities.Trails.RunEach | trail.py:458-459 | the loop over the trails raises exactly when one of them has bids and room |
| Entities.SortedByField | hasher.py:354-403 | the stable sort on a hasher field leaves that field ascending |
| Entities.NumbersAscend | hasher.py:354-403 | ascending on a numeric field means that field never falls along the list |
| Entities.Hashers.constructor | hasher.py:187-190 | a new hasher collection is empty |
| Entities.Hashers.GetById | hasher.py:266-271 | the stored hasher with that id, or `None` exactly when no listed hasher has it |
| Entities.Hashers.IdsDistinct | hasher.py:237-248 | two listed hashers never share an id |
| Entities.Hashers.Add | hasher.py:237-248 | a new id is appended and recorded; a known id raises `DuplicateError` and changes nothing |
| Entities.Hashers.AddUnique | hasher.py:252-262 | never raises; adds the hasher exactly when its id is new |
| Entities.Hashers.AddEachUnique | trail.py:382-384 | `addUnique` for every hasher of a list, in order |
| Entities.Hashers.SortById | hasher.py:354-360 | a stable, permuting sort with ids ascending |
| Entities.Hashers.SortByName | hasher.py:364-370 | a stable, permuting sort with names ascending in string order |
| Entities.Hashers.SortByOrder | hasher.py:374-381 | a stable, permuting sort with orders ascending |
| Entities.Hashers.SortByRank | hasher.py:385-393 | a stable, permuting sort with ranks ascending |
| Entities.Hashers.SortBySequence | hasher.py:397-403 | a stable, permuting sort with sequences ascending |
| Entities.Hashers.SortByRandom | hasher.py:407-431 | the list is shuffled by the draws; in shuffled order the hashers get orders 1..n and `rank = sequence * sequence * order`; the list ends as the stable sort by rank of the shuffled list, a permutation with ranks ascending |
| Entities.Hashers.Number | hasher.py:426-430 | the numbering loop gives the hasher at position `i` order `i + 1` and the rank computed from it |
| Entities.Hashers.Shuffle | hasher.py:425 | the list becomes the shuffle of itself by the draws, a permutation |
| Entities.HashersAmong | timeSlot.py:150 | the hashers drawn for a slot are among the hashers of its bids |
| Entities.TimeSlot.constructor | timeSlot.py:36-41 | id and name stripped, sequence as given, and an empty trail collection |
| Entities.TimeSlot.AddTrail | timeSlot.py:50-55 | a trail id already in the slot raises `DuplicateError` and changes nothing; otherwise the trail is appended |
| Entities.TimeSlot.GetBids | timeSlot.py:59-63 | a fresh collection of all bids on the slot's trails, trail after trail |
| Entities.TimeSlot.GetHashers | timeSlot.py:67-72 | a fresh collection of the slot's bidders, once per id, in order of first bid |
| Entities.TimeSlot.RunBid | timeSlot.py:145-157 | exactly the slot's bidders are numbered 1..k in the order the draws shuffle them, and each drawn bidder's rank is `sequence * sequence * order` from that order; the bids tried are the merged list of all bids on the slot's trails, stably sorted once by the equitable key `(-value, hasher wins at entry, hasher submitted bids, rank just drawn, trail submitted bids, trail id)`; so they are a reordering of those bids, in descending value; the wins end as the award rule run over them in that order leaves them; capacity and one-win-per-slot limits that held still hold |
| Entities.TimeSlot.DrawRanks | timeSlot.py:150 | the slot's own bidders, once each, are shuffled by the draws and numbered in that order; the slot's bids and every win stay as they were, and each bid's equitable key changes only in its rank column, which becomes its hasher's new rank |
| Entities.TimeSlot.Merged | timeSlot.py:151-156 | the merge loop builds a fresh collection holding the slot's trails' bids, trail after trail; no equitable key and no rank changes |
| Entities.TimeSlot.Settle | timeSlot.py:151-157 | once the ranks are drawn, the merged bids are tried in the stable sort of the slot's bids by their equitable keys as they stand then, in which every drawn bidder's rank is the one its drawn position gives; the tries are a reordering, in descending value, and the wins end as the award rule run over them leaves them |
| Entities.TimeSlot.Resolve | timeSlot.py:157 | `bids.runBid()` tries the merged bids in the stable sort of the merged list by the equitable keys at entry, a reordering in descending value; the wins end as the award rule run over that order leaves them, and limits that held still hold |
| Entities.RankDrawn | hasher.py:426-430 | a hasher numbered in drawn order has rank `sequence * sequence * (its 1-based position in that order)` |
| Entities.DrawnRanks | hasher.py:426-430 | every bid whose hasher was drawn carries the rank its hasher's drawn position gives |
| Entities.KeysOnValues | bid.py:412-418 | the equitable key of each bid is `(-value, its hasher's wins in the ledger, its hasher's submitted count, its hasher's rank, its trail's submitted count, its trail's id)`, read off the ledger and the two submission maps |
| Entities.RerankedSlotKeys | bid.py:412-418 | replacing the rank column of the keys by new ranks gives exactly the keys computed with those ranks, every other column kept |
| Slots.LoadPlanFacts | timeSlot.py:184-190 | the load keeps only well-formed rows, in order; it ends without error exactly when every non-empty row is well formed, and then it keeps every non-empty row; its only errors are `IndexError` and `ValueError`, never `DuplicateError` |
| Slots.TimeSlots.Load | timeSlot.py:184-190 | the loader's row loop builds one slot per kept row, numbered by position, and stops at the first row in error with that error |
| Slots.TimeSlots.AddRow | timeSlot.py:187-190 | one row becomes a slot with sequence one past the slots so far, whatever the row says, and is added; a short row or a non-number raises |
| Slots.TimeSlots.constructor | timeSlot.py:170-172 | a new slot collection is empty |
| Slots.TimeSlots.GetById | timeSlot.py:233-238 | the slot stored under that id, or `None` exactly when no listed slot has it |
| Slots.TimeSlots.Add | timeSlot.py:219-229 | the duplicate test looks up `int(id)` among string keys and never fires: an id that converts is always appended and takes over the dictionary entry; an id that does not convert raises `ValueError` and changes nothing |
| Slots.TimeSlots.SortBySequence | timeSlot.py:328-335 | the stable sort by sequence, a permutation with sequences ascending, returning the collection itself |
| Slots.TimeSlots.RunBid | timeSlot.py:319-324 | every slot is resolved once, in list order; slot `k` tries its trails' submitted bids in the stable equitable sort by (-value, hasher wins, hasher submitted bids, rank drawn by slot k's own draws, trail submitted bids, trail id), where the wins are those the award rule left after slots 0 to k-1, so a win in an earlier slot counts against a hasher later; each slot's tries are a reordering, highest value first; the wins end as the award rule run over all of them in that order leaves them; the submissions do not change; limits that held still hold |
| Slots.Resolved | timeSlot.py:157 | one slot's resolution leaves the trails' and hashers' submissions as they were, tries its trails' bids in the stable equitable sort keyed by the wins at entry and the ranks its draws give, a reordering in descending value, and leaves the claims of earlier slots as they were |
| Slots.RunSlot | timeSlot.py:323-324 | one turn of the loop tries the slot's bids in the equitable order keyed by the ledger the earlier claims left, and extends the claims tried so far by the slot's own |
| Slots.LedgersFromClaims | timeSlot.py:323-324 | the ledger each slot starts from is the award rule run, from the ledger at the start, over the claims of the slots before it |
| Slots.SoFarSnoc | timeSlot.py:323-324 | resolving one more slot, tried in the equitable order for the ledger the earlier slots left, extends the record of slots run: each one settled and equitably ordered from the ledger before it |
| Slots.SlotBidsFrom | timeSlot.py:155-156 | the bids a slot merges are the submitted bids of its trails, trail after trail, read off the submissions map |
| Driver.TrailBid.constructor | trailBid.py:57-83 | the driver holds the loaded slots, trails and hashers |
| Driver.TrailBid.RunBid | trailBid.py:126-133 | the hashers end listed as the global draw left them: shuffled by `draws`, numbered, and sorted by rank `sequence * sequence * position`; there is one try list per time slot; slot `k` tries its trails' submitted bids in the stable equitable sort keyed by the wins the award rule left after slots 0 to k-1 (from no wins at the start) and by the ranks slot k's own draws give; the wins end as the award rule run over all the tries in order leaves them; every trail ends within capacity (when capacities are not negative), every hasher with at most one win per slot, and every win is a bid submitted to that trail and by that hasher |
| Driver.TrailBid.Draw | trailBid.py:132 | `sortByRandom` keeps the same hashers and lists them as the shuffle by `draws` sorted by the ranks its numbering gave |
| Entities.NumberedKeys | hasher.py:426-431 | once the shuffled hashers are numbered, the keys `sortByRank` reads are each hasher's `sequence * sequence * (its 1-based position)` |
| Driver.UnrunWithin | trailBid.py:44-46 | before a run nothing is won, so the limits hold |
| Driver.Concluded | trailBid.py:133 | a run of reorderings of submitted bids, from wins that were all submitted, leaves wins that are all submitted |
| Driver.HeadingForms | trailBid.py:166-186 | with no flag or all three the heading is "results by hasher"; with only `noBid` it is "hashers with no bids"; otherwise it lists the chosen categories in the order successful, unsuccessful, no bid, joined with ", " and the last with ", and " |
| Driver.Rewritten | trailBid.py:177-186 | for comma-free categories, prefixing each with ", ", dropping the first separator and rewriting the last gives the list with a final ", and " |
| Calendar.Link | tb_calendar.py:55-56 | linking changes neither which slots nor which trails have entries, and fails only with `DuplicateError` |
| Calendar.LinkTwice | tb_calendar.py:55 | linking the same slot and trail twice fails at `addTrail` on the second try and changes nothing |
| Calendar.LinkSecondSlot | tb_calendar.py:55-56 | linking a trail to a second slot adds it to that slot's trails, then the setter raises, and the trail still points at the first slot |
| Calendar.RowEffect | tb_calendar.py:38-64 | one row never adds or removes slot or trail entries |
| Calendar.Passed | tb_calendar.py:36-64 | the pass counts at most one event per row and keeps the schedule's entries |
| Calendar.PassedEvents | tb_calendar.py:36 | every row read counts one event, so a pass in which no row raised counts exactly one event per row |
| Calendar.StopsAtFailure | tb_calendar.py:57-64 | the first row that raises ends the pass; later rows are never read |
| Calendar.RepeatedRowSurfacesNameError | tb_calendar.py:57-64 | a calendar with the same slot and trail twice links them once, then the second row raises `DuplicateError`, which the written handler turns into `NameError`, while the intended handler re-raises it |
| Calendar.ReraisedIsLinkError | tb_calendar.py:57-64 | the written pass lets out only `IndexError` or `NameError`; the intended one only `IndexError` or the link's `DuplicateError` |
| Calendar.Calendar | tb_calendar.py:19-69 | the new schedule, the trails' links, the event count, the reported lines and the exception are those the pass over the rows computes, first row at line 2 after a header |
| Calendar.Row | tb_calendar.py:38-64 | one turn of the loop does to the objects what the row's effect says |
| Calendar.Enrol | tb_calendar.py:55 | `addTrail` succeeds exactly when the trail id is new to the slot, and then appends it to that slot's schedule only |
| Calendar.Point | trail.py:97-103 | the setter succeeds exactly when the trail had no slot, and then points only that trail at the slot |
| Params.Augmented | param.py:81-89 | every key of either dictionary, with the caller's value wherever the caller gave one |
| Params.Overridden | param.py:93-106 | every key of either dictionary, with the overriding value wherever one is given |
| Params.DefaultKWArgs | param.py:75-89 | every version branch gives the augmented dictionary |
| Params.AddMissing | param.py:86-89 | the pre-3.5 loop adds exactly the defaults the caller lacks |
| Params.Params.constructor | param.py:25-34 | `args` is the caller's arguments augmented by the defaults |
| Params.Params.Get | param.py:59-60 | a value exactly for a present key, `None` otherwise, never raising |
| Params.Params.Set | param.py:64-66 | sets one key |
| Params.Params.Call | param.py:38-55 | overwrites with the given arguments and returns the dictionary; with none, nothing changes |
| Params.Params.SetDefaults | param.py:110-120 | adds only the absent keys |
| Params.Params.SetValues | param.py:124-132 | sets every given key and leaves the others |
| Params.DefaultsKeep | param.py:117-120 | setting defaults keeps every present value and only adds keys |
| Params.AugmentedIdempotent | param.py:117-120 | setting the same defaults twice is setting them once |
| Params.OverriddenIdempotent | param.py:130-132 | setting the same values twice is setting them once, and defaults set afterwards change nothing that was set |
| Params.SetKWArgsAsWritten | param.py:93-106 | every branch raises `NameError` |
| Params.SetKWArgs | param.py:93-106 | the documented merge: the caller's dictionary overwritten by the overriding values, in every branch |
| Params.SetKWArgsFails | param.py:93-106 | the written `setKWArgs` never gives the documented merge |
| Settings.Put | setting.py:29-31 | setting a key keeps the two dictionaries consistent |
| Settings.Absent | setting.py:23-25 | a key reads as `None` exactly when no stored key lowers to the same text |
| Settings.PutFetch | setting.py:23-31 | after a key is set, every spelling of it reads the new value and every other key reads what it read before |
| Settings.Recased | setting.py:29-31 | setting a key again under another casing redirects reads to the new value, and the older entry stays in `dict` |
| Settings.DefaultKept | setting.py:35-40 | `setDefault` keeps a truthy value and otherwise stores the default |
| Settings.ParsedLine | setting.py:51-56 | an accepted line sets the text before its first '=' (stripped) to all the text after it (stripped) |
| Settings.AcceptedSplits | setting.py:51-53 | an accepted line always splits into the two parts the reader tests for |
| Settings.CommentIgnored | setting.py:51 | a line that starts, after spaces, with '#' or ';' is never accepted and changes nothing |
| Settings.LastWins | setting.py:50-56 | a key reads the value of the last accepted line naming it, in any casing |
| Settings.ReadLines | setting.py:50-56 | reading lines keeps the store consistent |
| Settings.Settings.constructor | setting.py:14-19 | empty, then filled from the file's lines when a file is named |
| Settings.Settings.Get | setting.py:23-25 | the case-insensitive lookup, `None` exactly when no stored key matches |
| Settings.Settings.Set | setting.py:29-31 | the store after `Put` |
| Settings.Settings.SetDefault | setting.py:35-40 | the store after `setDefault` |
| Settings.Settings.ReadFile | setting.py:44-56 | the line loop leaves the store that reading the lines in order gives |
| Resource.PluralForms | resource.py:62-74 | one is the singular; any other count, 0 included, is the plural given or the singular with "s" |
| Resource.UnderlineShape | resource.py:40-45 | an underline is the fill character only, as long as the text (one character under the empty text) |
| Resource.UnderlineBrace | resource.py:44-45 | a brace as fill makes the format raise |
| Resource.HeadingCharacters | resource.py:32-36 | levels 1, 2 and 3 underline with '#', '=' and '-'; no other level underlines, and '.' is never chosen |
| Resource.HeadingLines | resource.py:26-36 | the headline, and an underline below it exactly for levels 1 to 3 |
| Resource.IndentIgnored | resource.py:31 | as written, a heading at any indent prints exactly as at indent 0 |
| Resource.IndentedHeadingLines | resource.py:26-36 | the documented heading: every line prefixed by `indent` spaces |
| Resource.IndentApplied | resource.py:26-36 | documented headings start with the requested spaces and differ from the written ones once the indent is positive |
| Generate.GenerateHashers | generate.py:19-39 | the header, then one line for each id 1..n |
| Generate.HasherLineFields | generate.py:35-38 | read back as CSV, a hashers line has the id, a sequence equal to the id, and a name with the id zero-padded to four digits |
| Generate.Initial | generate.py:53-55 | the template starts with the whole allowance on the first trail and 0 on the others |
| Generate.InitialTotal | generate.py:96-98 | the starting template totals the allowance |
| Generate.Emitted | generate.py:68-72 | every row carries a non-zero entry of its trail, and the rows are in trail order |
| Generate.EmittedComplete | generate.py:68-72 | conversely every non-zero entry gets its row, so the rows are exactly the non-zero entries |
| Generate.EmittedTotal | generate.py:107-111 | a hasher's rows add up to the template's total |
| Generate.PoolShiftKeeps | generate.py:103-105 | a pool shift moves one unit from `t` to `t + 1` exactly when `t` holds at least two more; it keeps the total and non-negative entries |
| Generate.PoolPassKeeps | generate.py:101-105 | a hasher's pool pass keeps the total and non-negative entries |
| Generate.PoolTemplateKeeps | generate.py:96-105 | the pool template always totals the allowance, with no negative entry for a non-negative allowance |
| Generate.GeneratePool | generate.py:86-120 | one block per hasher; each block's amounts add up to the allowance, none is zero, and none is negative when the allowance is not |
| Generate.Span | generate.py:57 | the span stays below the number of trails |
| Generate.SpanCycles | generate.py:57-81 | the first n hashers get spans 0..n-1, and then the spans repeat with period n |
| Generate.DribbleStepKeeps | generate.py:58-66 | a dribble step keeps the total, keeps the entries non-negative, and keeps the trails below the lowest empty |
| Generate.DribbleTemplateKeeps | generate.py:43-82 | with a positive allowance the dribble never raises, and its template always totals the allowance with no negative entry |
| Generate.EmptyAllowanceRaises | generate.py:59-66 | with no allowance the third hasher of three trails walks past the last trail, and the source raises `KeyError` |
| Generate.GenerateDribble | generate.py:43-82 | one block per hasher until a sweep raises; each block is the hasher's rows from its template; with a positive allowance it completes and every block adds up to the allowance with positive amounts |

## Left out

- File loading in every `__init__(filespec)` (opening files, joining paths, `csv.Sniffer`) is I/O. Rows arrive already split, and the sniffer's header verdict is a parameter of `Calendar.Calendar`.
- Printing of every kind is formatting: `print*`, `prettyListDisplay`, `__str__`, the report wrappers, the verbosity messages, the bid-allowance advisory text and `writeFileReadError`. Only whether the advisory fires is modelled, in `Entities.Hasher.AddBid`.
- `random.shuffle` is replaced by a stream of swap partners given as input. `generateBids_random` draws from `secrets`, so it is not modelled.
- The `__main__` and getopt blocks, and generate.py's calendar-file grouping, are command-line handling.
- `explain()` in trailBid.py calls a `Hasher.explain` that hasher.py does not define.
- trailTime.py is a copy of tb_calendar.py over another file. It is modelled once, as `Calendar`.
- `Bids.sortByHasherName` is called only by the trail report (trail.py:210).
- `Text.Lower` lowers ASCII letters only. Python's `str.lower` also folds other letters.
- Text.IsIntLiteral: accepts ASCII digits only. Python's `int` also reads other Unicode decimal digits (such as U+0663); the model reads a literal with such digits as a `ValueError`.
- `Settings` values are text or integers. Other Python values are not modelled.
- `Params` is modelled over dictionaries of one value type. Where the pre-3.5 branch mutates the caller's `kwargs` in place, the model returns a new map, so aliasing of the caller's dictionary is not captured.
- Entities.TimeSlot.RunBid: does not state in an ensures that the trails' submitted lists are left in their order. Its modifies frame allows changes only to hashers and to successful-bid collections. Those are different objects from the trails' submitted collections by their role tags, but no ensures states this.
- Entities.TimeSlot.RunBid: states the rank only of bids whose hashers were drawn. A hasher that shares its id with an earlier bidder of the slot is skipped by `getHashers`, so `sortByRandom` gives it no new rank; the model leaves that bid's rank column unstated.
- Slots.TimeSlots.RunBid: states the rank column of slot `k`'s equitable key only for bids whose hashers slot `k` drew, for the same reason as `Entities.TimeSlot.RunBid`: a hasher sharing its id with an earlier bidder of the slot is never redrawn.
- Slots.Resolved: states the rank column only for bids whose hashers the slot drew, for the same reason as `Entities.TimeSlot.RunBid`.
- Driver.TrailBid.RunBid: states each slot's rank column only for bids whose hashers that slot drew, for the same reason as `Entities.TimeSlot.RunBid`.
- Entities.Trails.RunBid: does not state what the submitted lists of the trails tried before the raise become. Each is re-sorted by `Entities.Trail.RunBid`, whose own contract states that sort.
- Driver.TrailBid.RunBid: states the capacity limit only for trails whose capacity is not negative. A trail with a negative capacity is already over its limit before anything is won.
- Entities.Trail.RunBid: models the per-trail path only as far as it can run. It raises at the first bid it tries on a trail with room, which the model states, so the intended guard is proved only about `TrailRunIntended`.
- Generate.GenerateDribble: positive amounts and the allowance total are proved only for a positive allowance. With no allowance the source raises, as `Generate.EmptyAllowanceRaises` shows, and with a negative one the template can go negative.
- Trail and hasher counts (`bidCount`, `bidValue`, `successfulBidCount`, `isAtCapacity`), `Bids.count` and `Bid.timeSlot` are pure reads of a field or a length. They appear inside the contracts above: in the equitable key, in the award rule and in the constructors' empty collections.
- Entities.Hasher.AddBid: takes the bid allowance as a parameter. The source reads it from the settings with `int(settings["bidAllowance"])`, and the `TypeError` that a missing setting causes is not modelled.
- Entities.Bids.Add: requires the bid's trail to have a time slot. With none, `bid.trail.timeSlot.id` raises `AttributeError` after the bid is already appended, and that path is not modelled. The callers that add bids also require it.
- `Bids.getHashersByTimeSlotId`, `Bids.getTimeSlots`, `TimeSlots.getBids` and `TimeSlots.getHashers` serve only the reports or no caller at all. None is on the allocation path, so they are not modelled.

## Findings

| source | as written | input that shows it | evidently intended | confidence | as-written member | corrected member |
|---|---|---|---|---|---|---|
| trail.py:246-260 | `Trail.runBid` calls `self.successfulBids.getByHasherId`, which `Bids` does not define, so `AttributeError` is raised | any trail with one submitted bid and capacity 1 | award a bid when the trail is below capacity, the hasher has no place on the trail and no win in the slot; stop at capacity | not executed | Entities.Trail.RunBid | Entities.TrailRunIntendedSafe |
| param.py:93-106 | the body reads `overridingKWArgs`, but the parameter is `overridingKWargs`, so every branch raises `NameError` | `setKWArgs({}, a=1)` | a right-biased merge of the two dictionaries | not executed | Params.SetKWArgsFails | Params.SetKWArgs |
| tb_calendar.py:57-64 | the handler passes `filename`, which is not defined, so a failed link surfaces as `NameError` | a calendar listing the same slot and trail on two rows | report the row and re-raise the link's `DuplicateError` | not executed | Calendar.RepeatedRowSurfacesNameError | Calendar.ReraisedIsLinkError |
| resource.py:31 | the indentation is `"".ljust(0)`, so `indent` is ignored | `printHeading("x", 4, 1)` prints "x" unindented | `"".ljust(indent)` | not executed | Resource.IndentIgnored | Resource.IndentApplied |
