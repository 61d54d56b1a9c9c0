# Verified models of the IOT C utilities

This project states and proves what the data structures, codecs and concurrent protocols of the library
promise. `dafny verify dfyconfig.toml` checks everything.

| part of the library | modules |
|---|---|
| values, their order and their hash (data.c, hash.c) | DataOrder, OrderMeaning (the order without the comparison), HashFolds, HashMeaning (the hash bit by bit), ArrayElements (raw memory), Bytes, Options, Sequences |
| maps: a red/black tree with parent pointers (data.c) | OrderedEntries (what a map means), RedBlackTree (shapes and colours), TreeLinks (pointers), RedBlackMap (the class `DataMap` and its iterator) |
| lists and vectors with a cached hash (data.c) | LinkedLists, Vectors |
| compression: hash-consing of a shared object graph (data.c) | ObjectTrees (the order of objects with cached hashes), ObjectGraph (references and counts), Compression |
| JSON (json.c, data-json.c, data.c) | JsonTokens and JsonParser (tokenizer), JsonText and JsonWriter (printer), JsonEscapes, JsonLoader (values from tokens), JsonGrammar (the texts of RFC 8259), JsonReading and JsonBuilder (how they are read), JsonRoundTrip, JsonMarks and JsonErrors (any text, valid or not), JsonBounds (which memory is accessed), CLibrary |
| CBOR (data-cbor.c) | CborFormat (RFC 8949), CborCodec, CborWriter |
| base64 (base64.c) | Base64 |
| streaming XML (yxml.c) | XmlStates (the table), XmlAutomaton (names and nesting), XmlParser (the byte stack), XmlDocuments (the grammar of XML 1.0 and what has to be reported), XmlTaken (the grammar that the parser takes), XmlSteps, XmlRuns, XmlMarkup, XmlInstructions, XmlElements, XmlProlog and XmlDeclaration (how its parts are read), XmlReading (whole documents), XmlShortfalls (which are not read right), XmlFinding and XmlOpening (from a text back to its parts), XmlSoundness |
| blocking queue (queue.c) | BlockingQueue, Monitors |
| thread pool (threadpool.c, component.c) | JobOrder, JobChain (the linked job queue), ThreadPool (the protocol), Components |
| scheduler and its clock (scheduler.c, time.c) | Scheduler, SchedulerStarts (starts, runs and calls), Clock |

Code that changes objects in place is a class or a method over an array: the tree nodes, the job chain, the
list, the vector, the tokenizer, the growing buffers, the XML stack, the base64 loops, the object graph of the
compression. Each such method is proved against a function on values, and the properties are proved about that
function. Code that runs in several threads is a state machine: one step is one critical section, split where
a thread waits on a condition variable or gives up the mutex around a callback. Which thread a signal wakes,
the readings of clocks and whether a pool accepts a job are choices that the proofs leave open.

A value is a `Data`. NULL pointers are `Missing`, bytes are integers from 0 to 255, C strings are byte
sequences without their terminator, a map is the sequence of its entries in key order. The result of a
comparison is its sign. What c32rtomb and strtod return is a parameter of the JSON reader (`CLibrary.Library`),
so its theorems hold in every locale; a conversion that fails is taken to write nothing.

## What the code does not do

Some properties one would expect are false of the code. Each is stated as a theorem, with the exact condition
under which the property holds where there is one.

- Removing from a map can unbalance it, because the repair is skipped when nothing takes the removed node's
  place (src/c/data.c:3234): `RedBlackMap.DataMap.RemoveNode` and `RedBlackMap.DataMap.Remove` say exactly when,
  `RedBlackMap.FourAddsOneRemove` builds such a map and unbalances it.
- An empty array allocated with a buffer and one allocated without have different hashes, so the equality test
  tells them apart (`DataOrder.EqualArrays`, and `DataOrder.EqualByHashes` for any two values), while the comparison
  does not. Compression, which goes by the comparison, takes one for the other: the contents stay, but not the value,
  and a hash that was cached before is not that of the value any more (`Compression.MergeTwoArrays`; exactly when:
  `Compression.Heap.Compress`).
- Resizing a vector to its present size discards a pending request to recompute the hash
  (`Vectors.DataVector.Resize`, `Vectors.SameSizeLosesFlag`).
- The scheduler thread computes its wake-up time, gives up the mutex, and sleeps after locking it again without
  another look at the queue; calls made in between, or while the scheduler is stopped, signal nobody. A schedule
  added then may be served a day late (`Scheduler.LostWakeup` by a race, `Scheduler.StoppedAddIsLost` without
  one). `Scheduler.CallBeforeSleep` and `Scheduler.SleepIsTimely` say exactly when the sleep is timely.
- A schedule whose repetitions are used up has repeat 0, which means no limit: added again it runs without end
  (`Scheduler.UsedUpRunsOn`; exactly when a schedule exceeds its repetitions: `Scheduler.LimitIsKept`).
- The end of the last job wakes one caller of the pool's wait function and leaves a second one asleep
  (`ThreadPool.SecondWaiterIsLost`; exactly when: `ThreadPool.SafeForTheWaiters`, `ThreadPool.WaitersAreServed`).
- An escape in a JSON string that the locale cannot represent moves the write pointer back, because c32rtomb
  returns (size_t) -1 (src/c/data-json.c:222-223); at the start of a string it leaves the buffer
  (`JsonEscapes.SurrogateLeaves`, `JsonEscapes.AccentLeaves`; exactly when: `JsonEscapes.StaysInside`).
- A JSON object with a member that has no value makes the builders read the value from behind the tokens that were
  made, and for some texts from behind the allocation (`JsonBounds.LoneKeyLeaves`, `JsonBounds.LoneKeyWithComma`;
  exactly when: `JsonBounds.DefinedIff`).
- White space before the `>` of the root element's end tag is refused, although XML 1.0 allows it there as in
  every other end tag (`XmlAutomaton.SpaceInEndTag`, `XmlAutomaton.RootSpaceRefused`).
- A processing instruction whose data end in an odd number of question marks is not closed by the `?>` behind them
  (`XmlInstructions.EndsIffEven`), and a reference of more than seven characters, such as one with leading zeros, is
  refused. `XmlShortfalls.ReadIffKnown` gives the exact condition for a document to be read right.
- The XML parser takes texts that are no documents: with white space in front of the declaration, several document
  types, control characters, or a root whose end tag breaks off behind its first space. `XmlTaken.TakenDocument` is the
  grammar of what it takes, `XmlReading.TakenAreRead` and `XmlSoundness.AcceptedAreTaken` prove both directions.
- The test for characters in numeric references agrees neither with XML 1.1 nor with XML 1.0: it lets surrogates
  through (`XmlAutomaton.AcceptedIsXmlChar`, `XmlAutomaton.AcceptedIsXmlChar10`, `XmlAutomaton.SurrogateAccepted`).

## Model

| member | source | states |
|---|---|---|
| DataOrder.CmpReverse | src/c/data.c:519-669 | swapping the two values reverses the sign, through nested arrays, vectors, lists and maps, although sizes and hashes are compared first |
| DataOrder.CmpChain | src/c/data.c:519-669 | the comparison is transitive, and a chain of two steps compares as zero only if both steps do |
| DataOrder.CmpZeroIsSame | src/c/data.c:519-669 | zero means structural equality, up to how empty arrays were allocated |
| DataOrder.EqualByHashes | src/c/data.c:681-684 | any two values are equal for the test if and only if they have the same contents and their hashes agree, and those of all containers inside one by one |
| DataOrder.CmpByHashes | src/c/data.c:519-669 | values of the same contents compare as zero if and only if the hashes of all their containers agree |
| DataOrder.EqualArrays | src/c/data.c:681-684 | of two arrays with equal contents: equal for the test if and only if they are not empty or were allocated alike |
| DataOrder.EmptyArraysDiffer | src/c/data.c:1597-1614 | two empty arrays that the equality test tells apart, and two vectors of them that even the comparison does |
| OrderMeaning.CmpIsTheOrder | src/c/data.c:519-669 | the comparison is negative if and only if the left value comes first: by type; numbers, addresses and truth values by size; texts and blocks at the first byte that differs or by being a beginning; arrays by length, element type and memory; containers by count, hash and the first part that differs |
| OrderMeaning.OneOfThree | src/c/data.c:519-669 | the answer is -1, 1 or 0 as the left one comes first, the right one does, or neither; neither does if and only if contents and hashes inside are the same |
| OrderMeaning.KeysInOrder | src/c/data.c:2287-2319 | the entries of a map ascend if and only if each key comes before all later ones |
| OrderMeaning.NumbersIncrease | src/c/data.c:2287-2319 | integer keys of one type stand in the order of the numbers |
| HashMeaning.TextHash | src/c/hash.c:12-20 | the hash of a text is the last of the numbers that start at 538 and become, for each byte, 33 times themselves in 32 bits with the byte mixed in bit by bit |
| HashMeaning.ContainerHash | src/c/data.c:290-334 | a bit of the hash of a vector, list or map is set if and only if an odd number of its parts have it, where an entry of equal hashes counts once |
| ArrayElements.ElementsAreStored | src/c/data-cbor.c:82-101 | memory is read as the values of which it holds the storage: byte k of a value v of n bytes is the digit for 256^k of v modulo 256^n |
| ArrayElements.MemoryHoldsElements | src/c/data-cbor.c:82-101 | and every memory of whole elements, with 0 or 1 in a boolean, holds the storage of what is read from it |
| ArrayElements.NumberHasStorage | src/c/data-cbor.c:82-101 | every number of an integer type has such a storage |
| HashFolds.HashSeqInsert | src/c/data.c:298-334 | the hash of a sequence with one element more, wherever it goes in, is the old hash with that element's mixed in |
| HashFolds.HashEntriesInsert | src/c/data.c:290-296 | the same for the entries of a map |
| OrderedEntries.PutKeepsOrder | src/c/data.c:3240-3256 | adding a key keeps the entries in strictly ascending order, one longer exactly if the key is new |
| OrderedEntries.PutGet | src/c/data.c:1846-1851 | a map after an addition returns the new value for the key and the old ones for all others |
| OrderedEntries.DropLaws | src/c/data.c:1742-1756 | after a removal the key is gone and every other binding stays |
| OrderedEntries.SameBindingsSameOrder | src/c/data.c:2287-2319 | two ordered entry lists with the same bindings are equal: the entries are determined by the finite map they stand for |
| RedBlackTree.GrandparentExists | src/c/data.c:3027-3079 | below a red parent there is always a black grandparent, so the insertion repair never follows a missing pointer |
| RedBlackTree.RecolouredIsPending | src/c/data.c:3027-3079 | recolouring around a red uncle moves the only fault two levels up and loses no balance |
| RedBlackTree.InnerIsEquivalent | src/c/data.c:3027-3079 | the inner rotation keeps entries, nodes and black heights |
| RedBlackTree.RaisedIsEquivalent | src/c/data.c:3027-3079 | the outer rotation with its two paintings keeps entries, nodes and black heights |
| RedBlackTree.FarRaisedIsShort | src/c/data.c:3081-3150 | the last rotation of the removal repair leaves a tree that obeys the red rule under a black root |
| RedBlackTree.HeightIsLogarithmic | src/c/data.c:3152-3161 | a balanced tree of n entries is at most 2 log2 (n + 1) high |
| RedBlackTree.BalanceAfterSplice | src/c/data.c:3196-3238 | a balanced tree stays balanced when a node with at most one child is taken out, if and only if the node was red, had a child or was the root |
| RedBlackTree.FourHaveABlackEnd | src/c/data.c:3196-3238 | in every balanced tree of four entries the first or the last one is a black node that removal does not spare |
| TreeLinks.RotatedLeftRow | src/c/data.c:3014-3025 | the five links a left rotation writes are all the links in which the rotated tree differs |
| TreeLinks.RotatedRightRow | src/c/data.c:3001-3012 | the same for a right rotation |
| RedBlackMap.DataMap.Rol | src/c/data.c:3014-3025 | the pointers spell out the tree rotated to the left at the node |
| RedBlackMap.DataMap.Ror | src/c/data.c:3001-3012 | the pointers spell out the tree rotated to the right at the node |
| RedBlackMap.DataMap.InsertBalance | src/c/data.c:3027-3079 | the loop restores the red rule under a black root and keeps entries, nodes and balance |
| RedBlackMap.DataMap.Find | src/c/data.c:3152-3161 | the node with the key, or the one place where it belongs, after no more comparisons than the tree is high |
| RedBlackMap.DataMap.Insert | src/c/data.c:3163-3186 | a new key's node is linked at its place and the colours are repaired |
| RedBlackMap.DataMap.Transplant | src/c/data.c:3188-3194 | which fields change when one subtree takes the place of another |
| RedBlackMap.DataMap.Minimum | src/c/data.c:2995-2999 | the leftmost node, which comes first in the order |
| RedBlackMap.DataMap.TakeOut | src/c/data.c:3196-3238 | in each of the cases the node leaves the tree, everything else keeps its order, and what is missing is one black node at the place returned |
| RedBlackMap.OutBetweenBalance | src/c/data.c:3196-3238 | when the next node in the order takes the place of a node with two children, the balance of the whole tree hangs on the colour and the child of the node that moved |
| RedBlackMap.DataMap.RemoveBalance | src/c/data.c:3081-3150 | the loop ends with a coloured tree of the same entries; on a red node it only paints |
| RedBlackMap.DataMap.RemoveNode | src/c/data.c:3196-3238 | exactly the key's entry goes; links, search order, red rule and black root stay; the balance stays if and only if the node that left its place was red, had a child or was alone |
| RedBlackMap.DataMap.NodeAdd | src/c/data.c:3240-3256 | a new key is inserted and mixed into the hash, a known one gets the value and asks for a new hash; the result says which |
| RedBlackMap.DataMap.Add | src/c/data.c:1776-1786 | the entries become those with the key put in; size, links, colours and hash stay right, balance is kept |
| RedBlackMap.DataMap.AddUnused | src/c/data.c:1788-1801 | adds exactly if the key is not there, and says so |
| RedBlackMap.DataMap.Lookup | src/c/data.c:1846-1851 | the value bound to the key, with at most 2 log2 (size + 1) comparisons in a balanced map |
| RedBlackMap.DataMap.Remove | src/c/data.c:1742-1756 | removes the key if it is there, says so, and keeps everything a valid map needs, with the same exact condition for the balance |
| RedBlackMap.Unbalance | src/c/data.c:1742-1756 | every balanced map of four entries loses its balance by one removal |
| RedBlackMap.FourAddsOneRemove | src/c/data.c:1742-1786 | a map built by four additions, unbalanced by one removal |
| RedBlackMap.DataMap.Start | src/c/data.c:2295-2299 | the node of the first entry, or none in an empty map |
| RedBlackMap.DataMap.NodeNext | src/c/data.c:3268-3287 | the child and parent links lead from the node of entry i to that of entry i + 1, and from the last to none |
| RedBlackMap.DataMap.Empty | src/c/data.c:2301-2305 | the map is empty and valid |
| RedBlackMap.DataMap.HashValue | src/c/data.c:298-334 | the cached or recomputed hash is that of the present entries |
| RedBlackMap.MapIter.Next | src/c/data.c:2307-2313 | visits every entry once, each time a key that the one before precedes in the sense of OrderMeaning, reports the end, and starts again |
| RedBlackMap.MapIter.HasNext | src/c/data.c:2315-2319 | true exactly when the next call of next will be |
| RedBlackMap.Run | src/c/data.c:1742-1858 | any interleaving of add, add_unused, remove, get and empty keeps the map valid with the entries the operations say, and answers as a finite map would; without removals of single keys it stays balanced |
| LinkedLists.LinkedList.TailPush | src/c/data.c:964-982 | the value is the new first element, the links and the cached hash and length stay right |
| LinkedLists.LinkedList.HeadPush | src/c/data.c:1009-1028 | the value is the new last element |
| LinkedLists.LinkedList.TailPop | src/c/data.c:984-1007 | the first element is handed out and unlinked, none from an empty list |
| LinkedLists.LinkedList.HeadPop | src/c/data.c:1030-1053 | the last element is handed out and unlinked, none from an empty list |
| LinkedLists.LinkedList.FindElement | src/c/data.c:844-855 | the first element that passes the test, or none |
| LinkedLists.LinkedList.RemoveElement | src/c/data.c:862-882 | exactly this element goes, wherever it is in the list |
| LinkedLists.LinkedList.Remove | src/c/data.c:884-891 | the first element that passes the test goes; without one nothing changes |
| LinkedLists.LinkedList.Replace | src/c/data.c:938-949 | the element's value changes and the hash is marked out of date |
| LinkedLists.LinkedList.HashValue | src/c/data.c:298-334 | the cached or recomputed hash is that of the present values |
| LinkedLists.Run | src/c/data.c:862-1053 | after any run of calls hash and length are those of the values that the calls leave |
| Vectors.DataVector.Add | src/c/data.c:2017-2034 | the slot has the new value; the hash is mixed in for an unset slot and marked out of date otherwise |
| Vectors.DataVector.IterReplace | src/c/data.c:2496-2515 | the slot's old value is returned and the new one is there, within the size |
| Vectors.DataVector.Resize | src/c/data.c:2052-2070 | the slots are cut off or filled with unset ones; for the present size the cached hash stays right if and only if it was not out of date |
| Vectors.DataVector.Compact | src/c/data.c:2072-2096 | the set slots in their order, and nothing else; the hash needs no change |
| Vectors.CompactedHash | src/c/data.c:2072-2096 | leaving out unset slots does not change the hash |
| Vectors.DataVector.HashValue | src/c/data.c:298-334 | the cached or recomputed hash is that of the present slots |
| Vectors.Run | src/c/data.c:2017-2096 | after any run of calls the hash is that of the slots that the calls leave |
| Vectors.SameSizeLosesFlag | src/c/data.c:2068 | a vector whose cached hash is wrong after a resize to its own size |
| ObjectTrees.TreeChain | src/c/data.c:519-669 | the comparison of objects is transitive whatever hashes they have cached, and a chain of two steps compares as zero only if both do |
| ObjectTrees.ZeroIsSameContents | src/c/data.c:519-669 | objects that compare as zero have the same contents, whatever hashes they have cached |
| ObjectTrees.FreshCompares | src/c/data.c:519-669 | where all hashes are right the comparison of objects is that of their values |
| ObjectGraph.MeaningIsUnique | src/c/data.c:298-334 | a graph of objects determines what can be read of each of them, hashes included |
| ObjectGraph.LastReference | src/c/data.c:1150-1210 | when the last reference to an object is given back, every count is right again with the references in its slots loose |
| Compression.Heap.Free | src/c/data.c:1150-1210 | giving back a reference leaves all counts exact and every remaining object unchanged |
| Compression.Heap.FoldSlots | src/c/data.c:298-334 | the loops compute the exclusive or over the hashes of the slots, pair by pair for a map |
| Compression.Heap.HashOf | src/c/data.c:298-334 | the cached hash, or the one computed from the slots, which is then cached; no answer for any object changes |
| Compression.Heap.Compare | src/c/data.c:519-669 | on objects whose slots are being rewritten the result is still that on the objects of the start |
| Compression.Heap.Find | src/c/data.c:1077-1094 | the cached object that compares as zero, or that there is none and the place that keeps the cache ordered |
| Compression.Heap.CacheAdd | src/c/data.c:1077-1094 | the slot ends with a cached object that compares as zero with the one it had, which it keeps if there was none; counts and the order of the cache stay right |
| Compression.Heap.CompressSlots | src/c/data.c:1096-1130 | all slots of the object and, below them, of every cached object refer to cached objects |
| Compression.Heap.Compress | src/c/data.c:1132-1137 | for every graph in which no object contains itself, whatever hashes are cached: all contents stay, counts are exact, below the root objects that compare as zero are one; the root compares as before unless its hash was out of date; its value stays if and only if the comparison told apart all values below it |
| Compression.CacheShares | src/c/data.c:1132-1137 | two ways down from the root to objects that compare as zero end at the same object, and every object below compares as it did |
| Compression.ReadingContents | src/c/data.c:1096-1130 | what is read of any object has the contents it had, up to how empty arrays were allocated |
| Compression.ValueStays | src/c/data.c:1096-1130 | where the comparison tells the values apart, every value below the root stays |
| Compression.StayingIsToldApart | src/c/data.c:1096-1130 | where the root's value stays, the comparison told the values apart |
| Compression.PlainIsToldApart | src/c/data.c:1096-1130 | it does if all hashes are right and no empty array was given a buffer |
| Compression.MergeTwoArrays | src/c/data.c:1077-1137 | a vector of two empty arrays, one given a buffer: compressed it holds the first twice; it still equals what it was if its hash was up to date, though that is not the hash of its value, and does not if it was out of date |
| JsonTokens.EveryText | src/c/json.c:175-314 | on any text, if the tokenizer succeeds no container is open, parents come before children, each size is the number of children, and the count is the number of tokens |
| JsonTokens.StepKeeps | src/c/json.c:175-314 | every character keeps the family of tokens right and the parent a live index or none |
| JsonTokens.EveryTokenWithin | src/c/json.c:175-314 | every token marks a part of the text |
| JsonMarks.EveryTokenMarks | src/c/json.c:42-314 | of every text that is accepted, valid JSON or not: objects and arrays are marked from bracket to bracket of the same kind, strings are those of section 7 of RFC 8259 but for control characters, and are marked as escaped exactly if there is a backslash in them, primitives are printable ASCII |
| JsonErrors.ErrorsMean | src/c/json.c:175-314 | for every text: one that is invalid stays so whatever follows; one that is partial has a continuation that is accepted; for want of tokens a text is refused if and only if it needs more |
| JsonErrors.InvalidStays | src/c/json.c:175-314 | no continuation of an invalid text is anything but invalid |
| JsonErrors.PartialCompletes | src/c/json.c:97-314 | the rest of an escape, a quote and closing brackets make an accepted text of a partial one |
| JsonErrors.RoomForTokens | src/c/json.c:15-26 | the number of tokens that there is room for makes no other difference |
| JsonTokens.Step | src/c/json.c:175-314 | the position strictly advances and the parser stays sane |
| JsonParser.Tokenizer.AddToken | src/c/json.c:15-37 | a token is taken if there is room, linked to its parent and counted there |
| JsonParser.Tokenizer.FindPrimitiveEnd | src/c/json.c:42-92 | where a primitive ends, or that it holds a character it may not hold |
| JsonParser.Tokenizer.FindStringEnd | src/c/json.c:97-170 | the closing quote and whether there was an escape, or the error |
| JsonParser.Tokenizer.CloseWalk | src/c/json.c:175-314 | the walk towards the root ends at the innermost open container or with an error |
| JsonParser.Tokenizer.Parse | src/c/json.c:175-314 | the token array and the result are those of the tokenizer as a function, for any text and array |
| JsonText.PlainIsItself | src/c/data.c:2563-2624 | a text without a backslash needed no escape |
| JsonRoundTrip.EscapeIsShortest | src/c/data.c:2563-2624 | of the ways to write a character in a JSON string the printer takes the shortest, with small letters as digits |
| JsonEscapes.EscapesUndone | src/c/data-json.c:197-243 | reading the escaped text of a string gives the string (section 7 of RFC 8259), in every locale |
| JsonEscapes.StaysInside | src/c/data-json.c:203-236 | the write pointer stays in its buffer if and only if no prefix of the text holds more failing escapes than bytes written |
| JsonEscapes.ConvertibleStays | src/c/data-json.c:214-226 | it stays inside if every escape names a character of the locale |
| JsonEscapes.SurrogateLeaves | src/c/data-json.c:222-223 | in UTF-8 a surrogate at the start leads out of the buffer, and after another character it overwrites that |
| JsonEscapes.AccentLeaves | src/c/data-json.c:222-223 | without a locale the same happens for every character outside ASCII |
| JsonReading.Reads | src/c/json.c:175-314 | on every text of a value by RFC 8259, with any white space in it, in any place where a value may stand, the tokenizer finds exactly the tokens of the value |
| JsonReading.EstimateSuffices | src/c/data-json.c:359-397 | the estimated number of tokens is never too small for the text of a value |
| JsonReading.TokensSettled | src/c/json.c:175-314 | the tokens of the text of a value are all closed and lie below their parent |
| JsonBuilder.AtomIsRead | src/c/data-json.c:262-300 | literals and numbers are read as what they mean: integers within their range and type, or saturated, and numbers with fraction or exponent as strtod has them |
| JsonBuilder.Builds | src/c/data-json.c:336-347 | from the tokens of a text the builder makes the value that the text means, and stops behind them |
| JsonBuilder.MembersBuild | src/c/data-json.c:302-319 | the same for the loop over the members of an object, where a later member replaces an earlier one of the same name |
| JsonBuilder.SeqBuilds | src/c/data-json.c:321-334 | the same for the loop over the elements of a vector |
| JsonBuilder.EveryJsonText | src/c/data-json.c:359-397 | every JSON text of RFC 8259, with any white space before, between and behind its tokens, is read as what it means, and the estimate of its tokens suffices, in every locale that has the characters of its escapes |
| JsonRoundTrip.PrintedComesBack | src/c/data-json.c:78-195 | the text printed for a value is read as the value with 64-bit integers, arrays as vectors, binary data as base64 text, scalar keys as text and no entries without a value |
| JsonRoundTrip.SpacedRoundTrip | src/c/data-json.c:359-397 | and so is every text made of its tokens with any white space before, between and behind them |
| JsonRoundTrip.RoundTrip | src/c/data-json.c:359-397 | such texts give the value itself, in every locale, for string-keyed maps, vectors without NULL, NUL-free strings, int64, uint64 above INT64_MAX, bool and null |
| JsonRoundTrip.ArrayAsVector | src/c/data-json.c:51-100 | an array is printed as the vector of the values whose storage its memory holds, and comes back as that |
| JsonWriter.StringHolder.Realloc | src/c/data.c:2554-2561 | the text stays, there is room for what was asked, and the growth is bounded |
| JsonWriter.StringHolder.StrcatEscape | src/c/data.c:2563-2624 | appends the text, escaped if asked, within the buffer |
| JsonWriter.ScalarLength | src/c/data-json.c:51-76 | no number needs more than the bytes set aside for it |
| JsonWriter.StringHolder.DumpBinary | src/c/data-json.c:29-49 | appends the base64 text; the encoder never lacks room |
| JsonWriter.StringHolder.DumpJson | src/c/data-json.c:78-172 | appends exactly the text of the value, every write within the buffer |
| JsonWriter.ToJson | src/c/data-json.c:179-195 | for any initial size above 0 the result is the printed value |
| JsonBounds.BuiltIffReadable | src/c/data-json.c:302-347 | a value can be built if and only if the tokens wanted, found in one pass over kinds and sizes, are all there and their strings stay in their buffers; it ends where they end |
| JsonBounds.DefinedIff | src/c/data-json.c:359-397 | of any text: reading it accesses only allocated memory if and only if the tokens it wants are in the allocated array, zeroed tokens included, and their strings stay in their buffers |
| JsonBounds.CompleteTexts | src/c/data-json.c:359-397 | if every member of every object is a string or primitive with a value, nothing behind the tokens made is read, and reading is defined if the strings stay in their buffers |
| JsonBounds.LoneKeyLeaves | src/c/data-json.c:302-319 | the text {"a"} is read beyond the allocation |
| JsonBounds.LoneKeyWithComma | src/c/data-json.c:302-319 | the text {"a",} is read beyond the tokens made but within the allocation, and gives an empty string as the value |
| JsonLoader.StringFromToken | src/c/data-json.c:197-243 | the buffer of the token's length and a terminator is never overrun at its end, and not at its start exactly under the condition of StaysInside; it holds the token's string |
| JsonLoader.Loader.PrimitiveFromJson | src/c/data-json.c:262-300 | the value of a primitive token; one token is used up |
| JsonLoader.Loader.MapFromJson | src/c/data-json.c:302-319 | the loop adds the members in the order of the text and ends behind them, or fails where an access is outside |
| JsonLoader.Loader.VectorFromJson | src/c/data-json.c:321-334 | the loop fills the slots in order, leaves out NULL values, and leaves the remaining slots unset, or fails where an access is outside |
| JsonLoader.Loader.ValueFromJson | src/c/data-json.c:336-347 | the value at the current token, and the token behind it, exactly where every access is inside |
| JsonLoader.CountTokens | src/c/data-json.c:359-397 | the loop computes the estimate |
| JsonLoader.FromJson | src/c/data-json.c:359-397 | for every text: the value, or null where the tokenizer fails, through the zeroed token array and the builders; it fails exactly where memory that was not allocated is accessed |
| CborFormat.HeadRoundTrip | src/c/data-cbor.c:41-75 | a head written is a head read, with what follows it left over (section 3 of RFC 8949) |
| CborFormat.HeadsAreShortest | src/c/data-cbor.c:41-75 | no head with the same argument is shorter (section 4.1 of RFC 8949) |
| CborCodec.ParseEncoded | src/c/data-cbor.c:103-231 | a decoder written from sections 3 and 3.1 of RFC 8949 reads every encoding as the item it stands for and leaves trailing bytes alone |
| CborCodec.PrefixFree | src/c/data-cbor.c:103-231 | no encoding is the beginning of another |
| CborCodec.MapConverts | src/c/data-cbor.c:429-452 | with keys distinct as CBOR values every entry of a map arrives |
| CborCodec.SameComesBack | src/c/data-cbor.c:259-305 | the conversions give back the same number in its least type of the same sign, the same text, bytes or sequence, for an array the values whose storage its memory holds, and the same map |
| CborCodec.RoundTrip | src/c/data-cbor.c:527-537 | encoding, decoding and converting gives the same value, whatever follows it |
| CborCodec.ArrayAsVector | src/c/data-cbor.c:82-101 | an array is encoded as the vector of the values whose storage its memory holds |
| CborCodec.TypesByWidth | src/c/data-cbor.c:259-305 | a number encoded in 1, 2, 4 or 8 bytes becomes the unsigned type of that width or the least signed type from there on that holds it, and null if none does |
| CborWriter.Holder.CheckSize | src/c/data-cbor.c:22-32 | there is room for what was asked, the contents stay, and the growth is bounded |
| CborWriter.Holder.WriteUint | src/c/data-cbor.c:41-75 | appends the shortest head, every write within the buffer |
| CborWriter.Holder.WriteInt | src/c/data-cbor.c:77-80 | appends the head of a signed integer |
| CborWriter.Holder.Dump | src/c/data-cbor.c:103-231 | appends exactly the encoding of the value |
| CborWriter.ToCbor | src/c/data-cbor.c:238-250 | for any initial size above 0 the bytes are the encoding |
| Base64.TablesAgree | src/c/base64.c:14-37 | the decoding table inverts the alphabet, both ways |
| Base64.AlphabetOfTheStandard | src/c/base64.c:14-37 | the alphabet is that of table 1 of RFC 4648; only the line feed is skipped and only "=" ends the text |
| Base64.EncodeLength | src/c/base64.c:39-44 | the size function is exact, terminator included |
| Base64.GroupsSpellTheirBits | src/c/base64.c:97-152 | three bytes become four symbols of the same 24 bits, the last one or two bytes padded with zeros (section 4 of RFC 4648) |
| Base64.RoundTrip | src/c/base64.c:52-95 | decoding an encoding gives the bytes, for every byte sequence |
| Base64.DecodingFailsOnInvalid | src/c/base64.c:46-95 | with the maximal buffer decoding fails if and only if an invalid character comes before the first '=' |
| Base64.DecodedBits | src/c/base64.c:46-95 | whatever decodes, with line feeds and padding or without: four symbols are three bytes of the same 24 bits, three or two left over are two bytes or one, and the bits that make no whole byte are dropped |
| Base64.EncodeInto | src/c/base64.c:97-152 | succeeds exactly if the buffer has the size computed, and writes the encoding and its terminator |
| Base64.DecodeInto | src/c/base64.c:52-95 | succeeds exactly if the text is valid and its bytes fit, writes just those bytes, and nothing behind the buffer's length |
| XmlAutomaton.TableFits | src/c/yxml.c:341-1057 | the table never asks a helper for a name the stack does not hold |
| XmlAutomaton.StepSound | src/c/yxml.c:341-1057 | while no error is returned the stack holds the open elements and what the state says is being read |
| XmlAutomaton.StreamsAreSound | src/c/yxml.c:341-1057 | on every byte stream up to the first error: pops never underflow, the stack is the list of open elements plus at most one name, reported starts and ends nest and leave just those open |
| XmlAutomaton.AcceptedDocuments | src/c/yxml.c:1060-1065 | an accepted document has closed every element it opened |
| XmlAutomaton.EndTagMatches | src/c/yxml.c:250-262 | an end tag is accepted if and only if its name is that of the innermost open element |
| XmlAutomaton.SpaceInEndTag | src/c/yxml.c:235-249 | any amount of white space of any kind in an end tag is accepted if and only if it is not the root's |
| XmlAutomaton.RootSpaceRefused | src/c/yxml.c:235-249 | a document of two tags that is refused for it |
| XmlAutomaton.AcceptedIsXmlChar | src/c/yxml.c:296-324 | the test of character references agrees with Char of XML 1.1 exactly outside two ranges |
| XmlAutomaton.AcceptedIsXmlChar10 | src/c/yxml.c:296-324 | and with Char of XML 1.0 exactly outside these and the control characters |
| XmlAutomaton.SurrogateAccepted | src/c/yxml.c:296-324 | a document whose reference to a surrogate is accepted |
| XmlSteps.FeedsOn | src/c/yxml.c:341-1057 | the stream of bytes is read, and what it reports is told, part by part |
| XmlRuns.ReferencePoint | src/c/yxml.c:296-324 | the number made of a reference is that of its character |
| XmlInstructions.EndsIffEven | src/c/yxml.c:818-859 | "?>" behind the data of an instruction ends it if and only if an even number of question marks stands before it; otherwise the two bytes are reported as data |
| XmlInstructions.InstructionIsRead | src/c/yxml.c:818-859 | an instruction anywhere in the document is reported with its target, its data and its end |
| XmlElements.NodeIsRead | src/c/yxml.c:551-817 | text, references, CDATA sections, comments, instructions, elements with attributes in either quote and empty elements, nested to any depth, are reported as what they are |
| XmlDeclaration.DeclarationIsRead | src/c/yxml.c:860-1057 | the XML declaration with its three settings is passed over |
| XmlReading.LineEndsAreNormal | src/c/yxml.c:341-365 | a text is read like the one in which each carriage return, with or without a line feed behind it, is a line feed (section 2.11 of XML 1.0) |
| XmlReading.TakenAreRead | src/c/yxml.c:341-1057 | with room for the names, every text of a document in the grammar of XmlTaken is taken to its end without an error and reported piece by piece: names, attributes, text in UTF-8, instructions, starts and ends, whatever its line ends |
| XmlReading.DocumentsAreRead | src/c/yxml.c:341-1057 | so is every document of XML 1.0 with byte order mark, declaration, document type, comments, instructions, elements, attributes, CDATA sections and references, if there is nothing in it that the parser does not know |
| XmlTaken.DocumentTaken | src/c/yxml.c:341-1057 | of the documents of XML 1.0 exactly those are in the grammar of the parser |
| XmlSoundness.AcceptedAreTaken | src/c/yxml.c:341-1065 | every text that is taken to its end without an error, in whatever room, is the text of a document in that grammar, and what was reported is what the document says |
| XmlSoundness.TakenOrStack | src/c/yxml.c:199-219 | in any room such a document is read right or refused for want of room, and for nothing else |
| XmlShortfalls.ReadIffKnown | src/c/yxml.c:341-1057 | for every document of the grammar: it is read to its end and reported right if and only if its references have at most seven characters and none stands for U+E000 to U+E7FD, its instructions close, and the root's end tag has no white space |
| XmlParser.Yxml.PushStack | src/c/yxml.c:199-209 | a new name of one byte on the stack, or an error if there is no room |
| XmlParser.Yxml.PushStackC | src/c/yxml.c:211-219 | one more byte of the last name, or an error |
| XmlParser.Yxml.PopStack | src/c/yxml.c:221-226 | the last name leaves the stack; the loop finds its start |
| XmlParser.Yxml.SelfClose | src/c/yxml.c:235-249 | the innermost element is closed and the pointer is on the next one's name |
| XmlParser.Yxml.ElemClose | src/c/yxml.c:250-256 | one byte of an end tag is compared |
| XmlParser.Yxml.ElemCloseEnd | src/c/yxml.c:258-262 | the element is closed exactly if its whole name was matched |
| XmlParser.Yxml.PiNameEnd | src/c/yxml.c:274-276 | an instruction may not be called xml, in any mixture of cases |
| XmlParser.Yxml.Parse | src/c/yxml.c:341-1057 | byte for byte the stack follows the automaton over names, and the caller reads the text or the name that goes with the return code |
| XmlParser.Yxml.AtEnd | src/c/yxml.c:1060-1065 | the end is accepted only with an empty stack |
| BlockingQueue.Safety | src/c/queue.c:31-153 | in every state of every run: first in, first out, each once; a sleeping consumer means every element has a woken consumer, a sleeping producer that every free slot has a woken producer, also across a change of the limit; nobody sleeps after the stop |
| BlockingQueue.StepKeeps | src/c/queue.c:31-153 | every critical section keeps the invariant |
| BlockingQueue.NoPushWhenFull | src/c/queue.c:88-119 | nothing is added at or above a limit, and only one element at a time |
| BlockingQueue.StoppedStays | src/c/queue.c:31-39 | the stop is final and nobody goes to sleep after it |
| BlockingQueue.TakersGetTheOldest | src/c/queue.c:53-86 | a dequeue delivers the oldest element not delivered, if and only if there is one; otherwise the try gives none and the blocking call sleeps while the queue runs |
| BlockingQueue.GiversAdd | src/c/queue.c:88-119 | an enqueue adds its element, as the newest, if and only if the queue is below its limit; otherwise the try says no and the blocking call sleeps with its element while the queue runs |
| BlockingQueue.ControlsMoveNothing | src/c/queue.c:31-153 | stop and the change of the limit move no element |
| BlockingQueue.BlockedOffers | src/c/queue.c:88-119 | over any run each blocked producer holds the element of its call |
| BlockingQueue.AcceptedIsGiven | src/c/queue.c:88-119 | over any run the elements added are those that the calls below the limit handed in, in their order |
| JobOrder.InsertKeepsOrder | src/c/threadpool.c:203-259 | a job inserted keeps the queue sorted by descending priority, unprioritised ones last, first come first served among equals |
| JobOrder.SortedIsUnique | src/c/threadpool.c:203-259 | jobs have only one such order |
| JobOrder.InsertAt | src/c/threadpool.c:203-259 | the place the loop finds is the place of the insertion |
| JobChain.JobQueue.FindPlace | src/c/threadpool.c:203-259 | the first node that has to make way, and the one before it |
| JobChain.JobQueue.Link | src/c/threadpool.c:203-259 | the node is in the chain at the place found, front and rear stay right |
| JobChain.JobQueue.TakeNode | src/c/threadpool.c:203-259 | a node comes from the cache, or is new if the cache is empty |
| JobChain.JobQueue.Add | src/c/threadpool.c:203-259 | the chain carries the queue with the job inserted; the node came from the cache or is new |
| JobChain.JobQueue.Pull | src/c/threadpool.c:113-131 | the first job is taken and its node goes to the cache: nodes are in the chain or in the cache and nowhere else |
| ThreadPool.StepKeeps | src/c/threadpool.c:102-154 | every critical section keeps the invariant |
| ThreadPool.NoLostWakeups | src/c/threadpool.c:261-302 | while the pool runs, a sleeping worker means there are no more jobs than awake idle workers, a sleeping producer that the queue is full, a lone sleeping waiter that there is work |
| ThreadPool.StablePriorityQueue | src/c/threadpool.c:203-289 | in every run the queue is sorted and within its limit, and every accepted job is queued or was pulled, once |
| ThreadPool.PulledFirst | src/c/threadpool.c:113-131 | the job pulled comes before all that stay |
| ThreadPool.JobsCarryRequests | src/c/threadpool.c:261-289 | over any run the jobs accepted are the requests of the calls that found room, in their order, with the priority and work asked for and numbered from the first |
| ThreadPool.BlockedRequests | src/c/threadpool.c:261-289 | over any run each blocked call holds the request it was made with |
| ThreadPool.WorkerTakesJob | src/c/threadpool.c:102-154 | a worker takes the first job if and only if the pool runs and there is one; it leaves a deleted pool, and sleeps otherwise |
| ThreadPool.StateChanges | src/c/component.c:84-106 | start and stop set the state unless the pool is deleted, which takes a stop first and is final |
| ThreadPool.WorkersStay | src/c/threadpool.c:102-154 | no worker is ever lost or doubled |
| ThreadPool.StopWakesAll | src/c/threadpool.c:304-312 | after a stop, with no start since, no worker is asleep waiting for a job |
| ThreadPool.SafeForTheWaiters | src/c/threadpool.c:102-154 | with any number of waiters, a step leaves nobody asleep in wait of an idle pool, whichever threads its signal wakes, if and only if it does not end the last job while two or more wait |
| ThreadPool.WaitersAreServed | src/c/threadpool.c:291-302 | over any run with any number of waiters: nobody is ever asleep in wait of an idle pool if and only if each step that ends the last job wakes all who wait |
| ThreadPool.SecondWaiterIsLost | src/c/threadpool.c:291-302 | a run of six steps from the start after which one of two waiters sleeps although there is no work |
| Clock.StampsIncrease | src/c/time.c:37-48 | under any interleaving and any clock jumps the stamps strictly increase in the order of the swaps, and each is the greater of its reading and the last stamp plus one |
| Scheduler.FindFree | src/c/scheduler.c:90-99 | the collision loop ends at the least free start at or after the one requested |
| Scheduler.StepKeeps | src/c/scheduler.c:154-261 | every step of the thread and every call, also from within a callback, keeps the invariant |
| Scheduler.Partition | src/c/scheduler.c:90-122 | each live schedule is in exactly one map, queued under its start if and only if it is scheduled |
| Scheduler.Ownership | src/c/scheduler.c:54-72 | references are one for the owner plus one for each unfinished run, a schedule never concurrent has at most one run, memory is freed once and never used after |
| Scheduler.VisitsAreSpaced | src/c/scheduler.c:177-254 | no visit before its start, and two due visits of a schedule that stays queued are more than a period apart |
| SchedulerStarts.StartsAsAsked | src/c/scheduler.c:177-417 | over any run: created, a schedule starts at the stamp plus its delay; a visit that counts moves its start to the least free one from the stamp plus the period on, a reset from the stamp plus period and delay on, a randomised add from the stamp plus the offset on; nothing else moves it |
| SchedulerStarts.DueVisitsSetOffRuns | src/c/scheduler.c:177-254 | over any run: a schedule found due is visited at that stamp, and its callback, its run in the pool and its abort callback come exactly when they should |
| SchedulerStarts.CallsTakeEffect | src/c/scheduler.c:323-417 | over any run: a call queues, idles, deletes, releases or marks the schedule it is made on and no other, and none becomes both synchronous and concurrent |
| Scheduler.RepetitionsLeft | src/c/scheduler.c:231-247 | in every reachable state the repetitions to come and the due visits that counted make up the number asked for |
| Scheduler.VisitsAreCounted | src/c/scheduler.c:177-254 | over any run: every due visit of a schedule since its creation has counted, but for the one under way and those at whose end the schedule was off the queue |
| Scheduler.AllVisitsCount | src/c/scheduler.c:177-254 | over any run: there are none of the latter if nobody removes or deletes the schedule in its own callback |
| Scheduler.ExpiresAfterNVisits | src/c/scheduler.c:231-247 | over any run, removals and deletions included, in which a schedule with n repetitions is not added when they are used up: it has at most n due visits that count, has expired if and only if it has had n, and is idle then unless deleted |
| Scheduler.LimitIsKept | src/c/scheduler.c:231-247 | over any run: a schedule with n repetitions never has more than n due visits that count or are under way, if and only if no visit starts after it was added with repeat 0 |
| Scheduler.UsedUpRunsOn | src/c/scheduler.c:231-247 | a run in which a schedule with one repetition is added again, has a second visit and stays queued |
| Scheduler.TimelyKept | src/c/scheduler.c:323-417 | while the thread sleeps no call leaves it asleep beyond the first start unsignalled |
| Scheduler.CallBeforeSleep | src/c/scheduler.c:323-417 | an add, randomised add or reset before the sleep leaves it timely if and only if the start it takes in the queue is not before the wake-up time |
| Scheduler.ThreadComputes | src/c/scheduler.c:154-261 | each step of the thread, also after a callback, either computes the wake-up time, which is then the first start or a day away, or leaves it and the queue alone |
| Scheduler.SleepIsTimely | src/c/scheduler.c:154-175 | over any run: going to sleep is timely if and only if no schedule still queued was put in with an earlier start since the wake-up time was last computed |
| Scheduler.LostWakeup | src/c/scheduler.c:154-261 | a run in which a schedule is due at once and the thread sleeps for a day |
| Scheduler.StoppedAddIsLost | src/c/scheduler.c:323-343 | the same without a race: stop, add, start |

## Left out

- Compression.Heap.CacheAdd: takes its reference to the cached object before it releases the other one; the source releases first, which makes no difference because the cache holds two references to the object it found.
- Compression.Heap.Compress: vectors with unset slots, for which the lookup asserts that there is a key; the cache is the ordered sequence of its tree, searched from the front, and objects are entries of a table rather than Dafny objects.
- JsonWriter.StringHolder.DumpBinary: encodes into a second buffer of the same room and copies, because a pointer into the middle of the text has no counterpart here.
- JsonLoader.FromJson: stops at the first access to memory that was not allocated; what the program does after it is open.
- JsonLoader.StringFromToken: which of the two a failing c32rtomb leaves in its buffer, the old bytes or part of a character, is up to the library; the model takes the old bytes.
- Scheduler.StepKeeps: assumes that threads can be created and that a randomised start is asked for idle schedules only; the update of the start outside the mutex is part of the step that follows it.
- XmlParser.Yxml.Parse: the line, byte and total counters are not modelled; the text is what the caller reads right after the call.
- XmlReading.TakenAreRead: the room asked for is twice the length of the document, where the names on the stack need less; XmlSoundness.TakenOrStack says what happens in less room.
- XmlReading.DocumentsAreRead: the grammar takes every byte above ASCII for a letter, and leaves out that names of attributes differ.
- Floating point numbers: their order, their printing and the comparison by value; for reading, strtod gives whichever value stands for the number.
- Widths of counters: sizes, reference counts, job numbers and times are unbounded; hashes, CBOR arguments and parsed JSON integers have their width.
- The JSON form that keeps the order of keys, the cache of strings across calls, and the tokenizer call without a token array.
- libcbor's own parser, its UTF-8 check, chunked strings and tags: the decoder here is written from RFC 8949.
- Type tags that restrict the keys and elements of containers, and metadata.
- iot_data_map_iter_replace_value, iot_data_map_base64_to_array and changes of stored elements in place: they are outside of what the hash promises.
- Black heights after removals, beyond the exact condition for one removal.
- Freeing a pool, a scheduler or a queue while it is in use, thread priorities, affinity and failures to create threads.
- The container, YAML, files, logging, UDP, stores and the other input and output: they depend on calls into code that is not part of this model.
