# Zebra: a model of its storage and indexing core

Zebra is a full-text indexing and retrieval engine. This project models the parts of it in which a
simple specification hides behind an intricate mechanism, and proves that the mechanism keeps it:

- **The dictionary** (`dict/`): a trie of fixed-size pages. A page holds tail strings and pointer
  entries; a full page is cleaned or split, an empty one goes to a freelist. It refines a finite
  map under insertion, deletion, subtree deletion and lookup; insertion never runs out of room, and
  no page is lost. Scanning reports the keys around a term. The page cache below is invisible: for
  pages made one after another it answers as a store of pages would.
- **The regular expression compiler** (`dfa/`): a parser accepts exactly the patterns of a grammar,
  each in one way only, and its tree matches what the pattern stands for. From the trees, over first,
  last and follow positions, comes an automaton, with sets as linked cells, a hashed state table and
  transitions on character ranges. It tells, for every word, the first pattern the word belongs to.
- **Approximate search** (`dict/lookgrep.c`): levels of automaton states in bit rows, walked over
  the trie. It reports exactly the stored keys within a number of edits of a pattern, in order, until
  the caller has enough.
- **Shadow files and commit** (`bfile/`): a copy-on-write overlay indexed by a hash of buckets, of
  which some are in memory, and later by a flat array. Reading gives the latest bytes; committing
  keeps what is read at every step and can be cut short and started again.
- **The index key pipeline** (`index/`): keys of records become postings, collected in a buffer,
  sorted, written as run files, merged by a heap and netted. What comes out is the sum of each key,
  however the postings were cut into runs. The hand-over of buffers to a sorting thread is a state
  machine of its own.
- **MARC records** (`data1/d1_marc.c`, `index/mod_grs_marc.c`): a two-pass printer of the exchange
  form of ISO 2709:2008 (clause 4) and a reader guided by its directory undo each other.

A module stands for a source file or a part of it. Where the source updates a structure in place
the model is a class with the same fields; its methods are proved against specification functions
and predicates, about which the lemmas state what the source promises. `Valid()` and predicates
whose name ends in `Ok` are invariants. Pages are values with exact byte counts: the entries a page
holds and the bytes they take. The verifier hides what a proof does not need; short lemmas whose
names end in `Parts`, `Again` or `Is` bring back a definition where it is wanted.

Two conditions are hypotheses of the dictionary. `ValidConfig` is the capacity a page needs:
14 + (A + 1)(8 + U) + (L + U + 4) bytes for A characters, information of 1 to U bytes and keys of at
most L bytes. U is at most 127, for the reason below. Information of length 0 is not stored: such a
key cannot be told from an absent one.

Where the code does not do what the documentation of `include/idzebra/dict.h` says, the model does
what the code does, and a lemma says when the two agree:

- Information may have 255 bytes, but its length byte is read as a signed character. Beyond 127 bytes
  storing the same again is not recognised, and cleaning a page copies a wrong number of bytes
  (`DictLength`).
- Deleting an absent key is answered with 1 exactly when an empty page is met on the way to it, which
  a split may leave (dict/insert.c:125-129, `DictDelete.Delete`, `DictDelete.AbsentReported`).
- A deletion of a subtree tells the information of every key, but that of the prefix itself is wiped
  before it is told when the prefix ends at a pointer entry (`DictDelete.DeleteSubtree`).
- The leading characters of a key that must not be edited must begin some word of the pattern, but not
  the word the key is close to (`PatternGrep.StartOfAnother`). When all words start with the same
  characters, this is what was asked for (`PatternGrep.HitsRest`).
- A scan that is cancelled goes on in the other direction (`DictScan.Around`).

The comment in util/su_codec.c says that index 0 has the code 1. It has none, so its terms are read as
terms of other indexes (`KeyBlock.SuZero`); indexes are numbered from 1.

## Model

| member | source | states |
|---|---|---|
| DictInsert.Insert | dict/insert.c:439-454 | inserting a key updates the finite map the dictionary stands for at that key only, keeps every page invariant, and answers 0 for a key that was new, 1 for one whose information changed and 2 for one that had the same |
| DictInsert.DictIns | dict/insert.c:249-437 | below any page, afterwards the key has its information and every other key what it had, through in-place change, cleaning, splitting and descent; a string that fits is put in its slot without a split; the recursion ends |
| DictInsert.SplitPage | dict/insert.c:64-145 | a split keeps everything that is found, leaves fewer tail strings, and splits no other page on the way |
| DictInsert.ChooseGroup | dict/insert.c:77-104 | the loop over the slots picks a whole group of tails that start with one character and weigh at least as much as any other group |
| DictInsert.SplitRoom | dict/insert.c:147-231 | the page left after a split, with its new pointer entry, passes the size check that follows |
| DictInsert.SplitFind | dict/insert.c:106-143 | replacing a group by a pointer entry to a page with the same strings less their first character changes nothing that is found |
| DictInsert.CleanPage | dict/insert.c:147-231 | the rewritten page holds the kept slots in order, with one pointer entry for the strings left out, and no unused bytes |
| DictInsert.MoveGroup | dict/insert.c:106-129 | reinserting the group never overflows the fresh page, which then holds exactly the group's strings less their first character; a string of one character gives its information to the pointer entry |
| DictCapacity.PointersLeaveRoom | dict/insert.c:233-243 | a clean page that holds no tail string has room for any entry, so a full page always has a group to split off |
| DictCapacity.PtrsBound | dict/insert.c:64-145 | pointer entries of a page are at most as many as characters, and their bytes at most what is set aside for them |
| DictPage.LessMeans | dict/open.c:108-111 | one key comes before another exactly when, where they differ first, it ends or has the smaller character |
| DictTrie.Search | dict/lookup.c:42-50 | the binary search of a page ends at the slot that compares equal, or at the place with all slots before it low and all after it high |
| DictTrie.LocalChange | dict/insert.c:249-437 | changing some slots of one page changes what is found below it exactly as the slots say, and keeps the trie's invariants |
| DictLength.StoredAgain | dict/insert.c:278-300 | storing the same information again is recognised exactly up to 127 bytes; a longer one moves each time |
| DictLength.CleaningKeeps | dict/insert.c:209-211 | cleaning a page copies the information of an entry and its length exactly up to 127 bytes |
| DictLookup.DictLook | dict/lookup.c:32-98 | the loop over pages finds the information of a key below a page exactly when there is any |
| DictLookup.Lookup | dict/lookup.c:100-106 | looking a key up gives its value in the finite map, or nothing |
| DictDelete.Delete | dict/delete.c:260-264 | deleting leaves exactly the map without the key and keeps the invariants; the answer is 1 exactly for a present key or one with an empty page on the way to it |
| DictDelete.AbsentReported | dict/delete.c:246-252 | a dictionary in which deleting an absent key is answered with 1, and a prefix whose information would not be told |
| DictDelete.HollowBelow | dict/delete.c:201-240 | below a pointer entry there is nothing to report exactly when there is nothing in its subpage |
| DictDelete.DeleteSubtree | dict/delete.c:266-271 | exactly the keys with the prefix are gone; the caller is told of each once, with its information, except that the prefix itself is told as empty when it ends at a pointer entry; the answer is 0 exactly for an empty dictionary or a quiet way: no string with the prefix on it, and at its end a pointer entry without information beside others, or a page that leads no further but is not empty |
| DictDelete.QuietHollow | dict/delete.c:201-256 | where no pointer entry ends the prefix, a deletion that answers 0 meets no empty page on its way |
| DictDelete.DelString | dict/delete.c:87-258 | below any page exactly the doomed keys disappear, pages keep their order and sizes, and a page that became empty is released |
| DictDelete.DelSubtree | dict/delete.c:30-85 | exactly the pages of the subtree go to the freelist, each once; all others are untouched; what is told of each page comes in the order of its entries |
| DictHeard.CallsList | dict/delete.c:30-85 | what is told of a live subtree is the information of its keys in ascending order |
| DictHeard.ButDone | dict/delete.c:254-255 | telling the keys of the subtree taken out completes the account of all keys that went, each once |
| DictConserve.PagesConserved | dict/insert.c:38-62 | each page number below the last is reached from the root by exactly one path or is on the freelist exactly once, never both |
| DictList.ListStored | dict/scan.c:31-122 | reading the slots in order, a pointer entry's own key before its subpage, lists exactly the stored keys in ascending order |
| DictScan.Scan | dict/scan.c:242-258 | the keys reported after a term are the first ones from the term on, ascending, and those before it the last smaller ones, descending; each call tells how many are still wanted; an answer other than 0 stands at the last call of its direction only, and then no more are wanted; without one there are as many calls as wanted, or as keys on that side; the names are read from the buffer up to its end mark |
| DictScan.TakeReported | dict/scan.c:31-122 | of any list: the calls are for its first items, with the count going down; one that is answered with other than 0 is the last and leaves nothing wanted; else they are as many as wanted or as there are |
| DictScan.ScanR | dict/scan.c:124-240 | the same below any page for the rest of a term, including keys and terms that end at a pointer entry |
| DictScan.ScanDirection | dict/scan.c:31-122 | from a slot on, or back, the keys are reported in order until the count is used up or the caller ends it, none missed or repeated |
| DictCache.PageCache.constructor | dict/dopen.c:35-72 | an empty cache stands for the pages of its file |
| DictCache.PageCache.ReadP | dict/drdwr.c:188-224 | reading a page gives its latest contents whatever was evicted, and keeps every block in exactly one list; a page that was never made is not found when no page number was skipped; a page in a block is a hit and becomes the newest, the others keep their order; for any other, a miss, the oldest page makes room when no block is free |
| DictCache.DenseMore | dict/drdwr.c:226-242 | pages made one after another leave none out |
| DictCache.PageCache.NewP | dict/drdwr.c:226-242 | a new page holds zeros and becomes the newest; no other page changes |
| DictCache.PageCache.FlushBlocks | dict/drdwr.c:82-131 | exactly as many of the oldest blocks as asked for, or all, are written if dirty and released, oldest first; what the pages hold does not change |
| DictCache.PageCache.AllocBlock | dict/drdwr.c:133-163 | the block taken is the newest of the list by age, heads the chain of its page, and is the only block of that page; the oldest page makes room when no block is free, and the others keep their order |
| DictCache.PageCache.FlushAll | dict/drdwr.c:82-131 | after flushing everything the file holds every page |
| DictCache.PageCache.Touch | dict/drdwr.c:244-253 | a page in a block is marked to be written; the answer tells whether it has one |
| DictCache.ReleaseOk | dict/drdwr.c:58-80 | relinking around a released block leaves the list by age, all hash chains and the free list well linked, and each block in one place |
| DictCache.AllocateOk | dict/drdwr.c:133-163 | linking in a block from the free list does the same |
| DictCache.MoveOk | dict/drdwr.c:165-186 | moving a block to the front keeps all lists, and the order of the others |
| DfaPosition.MatchesWalk | dfa/dfa.c:648-750 | a tree with distinct positions matches exactly the words that label a walk through its first, follow and last positions |
| DfaTrav.DfaParse.Trav | dfa/dfa.c:648-750 | one traversal computes nullable, the first and last positions of the node, and fills in the follow positions of its subtree |
| DfaTrav.DfaParse.AddFollow | dfa/dfa.c:636-646 | the first positions are added to the follow set of each last position, and to no other |
| DfaReach.FollowNonEmpty | dfa/dfa.c:762-842 | in a tree closed by end marks every position that reads a character is followed by another |
| DfaReach.RootMatches | dfa/dfa.c:244-310 | the tree of all rules matches a word followed by the mark of a rule exactly when the rule matches the word |
| DfaReach.RuleHolds | dfa/dfa.c:244-310 | a rule holds a word exactly when reading it reaches the end position of that rule |
| DfaSet.MergeUnion | dfa/set.c:194-225 | merging two ascending lists gives the ascending list of their union |
| DfaSet.AscendingEqual | dfa/set.c:249-255 | ascending lists with the same elements are equal, so comparing lists compares sets |
| DfaSet.SetPool.MergeSet | dfa/set.c:194-225 | the result is the union in fresh cells; both arguments and all other sets stay |
| DfaSet.SetPool.UnionSet | dfa/set.c:152-187 | the result is the union in the cells of the first set; the second and all others stay |
| DfaSet.SetPool.AddSet | dfa/set.c:135-150 | adds one element in its place, or nothing when it is there |
| DfaSet.SetPool.RmSet | dfa/set.c:115-133 | exactly the cells of the set go back to the freelist |
| DfaSet.SetPool.EqSet | dfa/set.c:249-255 | true exactly when the two lists hold the same elements |
| DfaStates.StateTable.AddState | dfa/states.c:98-142 | a set that has a state gives that state and its cells back, any other a new state; no two states have the same set |
| DfaStates.StateTable.GetState | dfa/states.c:174-186 | takes the newest state that has not been expanded, or tells that there is none |
| DfaStates.StateTable.AddTran | dfa/states.c:144-172 | appends a transition to the state being expanded, across growing blocks; all other transitions stay |
| DfaTran.NarrowUniform | dfa/dfa.c:821-829 | narrowing a range at the edges of a position keeps all its characters alike for the positions seen so far |
| DfaTran.Chunk | dfa/dfa.c:805-832 | the range found is one no position tells apart, and the set gathered is exactly what follows on it |
| DfaTran.CharPositions | dfa/dfa.c:786-803 | of the positions of a state, exactly those that read characters are kept, and its rule is the least one that ends there |
| DfaTran.StatesBound | dfa/dfa.c:771-842 | there are no more states than sets of positions, so the worklist ends |
| DfaTran.MkDfaTran | dfa/dfa.c:762-842 | the finished automaton starts with the first positions, every state is expanded over all characters, and none waits |
| Dfa.RunReaches | dfa/dfa.c:762-842 | running the automaton on a word leads to the state of exactly the positions the word reaches, and nowhere when there are none |
| Dfa.RunAccepts | dfa/dfa.c:1060-1088 | for every word, the run from state 0 ends in a state whose rule is the least rule the word belongs to, or 0 when there is none |
| Dfa.MkDfas | dfa/dfa.c:1060-1088 | from the trees of all rules to the finished automaton: positions, traversal and subset construction together |
| DfaCset.TravSet | dfa/bset.c:183-208 | the first member from a place on, or none, with whole empty words skipped |
| DfaCset.TraviSet | dfa/bset.c:210-235 | the first non-member from a place on, or none, with whole full words skipped |
| DfaCset.Complement | dfa/bset.c:162-169 | within the alphabet, members and non-members change places |
| DfaCset.ClassTree | dfa/dfa.c:582-618 | the tree of a character class reads exactly its members, with distinct new positions; the empty class becomes the empty word |
| DfaSyntax.Parser.Expr1 | dfa/dfa.c:115-134 | alternatives are read exactly where alternatives stand, as the only ones that stand there, and the tree matches their words |
| DfaSyntax.Parser.Expr2 | dfa/dfa.c:136-159 | the same of sequences: they go on as long as a token can start another part |
| DfaSyntax.Parser.Expr3 | dfa/dfa.c:161-194 | the same of what may be repeated, by one postfix operator at most |
| DfaSyntax.Parser.Expr4 | dfa/dfa.c:196-242 | the same of groups, characters and classes; the wildcard token is never accepted |
| DfaSyntax.CatsMore | dfa/dfa.c:136-159 | the tree of a longer sequence matches exactly the concatenations of words of its parts |
| DfaSyntax.PostSame | dfa/dfa.c:161-194 | the trees of the three postfix operators match none or more, one or more, and none or one of the words repeated |
| DfaSyntax.OnlyBody | dfa/dfa.c:244-310 | what was read to the end is the one pattern these tokens are of |
| DfaSyntax.NoBody | dfa/dfa.c:244-310 | where reading stopped too early the tokens are of no pattern at all |
| DfaSyntax.Parser.DoParse | dfa/dfa.c:244-310 | a rule when the tokens are of a pattern, an error when they are of none; its tree matches the pattern, the end mark as a newline; a token that comes after a whole pattern is the one the error tells |
| DfaSyntax.StopsThere | dfa/dfa.c:296-308 | of tokens that go on after the longest pattern they start with, reading stops at the first token too many, and its kind decides which error is told |
| DfaSyntax.MkAnySet | dfa/dfa.c:1035-1039 | at first the class of the dot is every character but the newline |
| DfaPatterns.DfaInfo.AnySetIncludesNl | dfa/dfa.c:1102-1105 | afterwards it has the newline too, and is otherwise as before |
| DfaPatterns.RuleAdded | dfa/dfa.c:1119-1144 | adding the rule of a pattern keeps positions distinct and every rule's tree matching its own pattern |
| DfaPatterns.FirstRead | dfa/dfa.c:1060-1088 | the automaton of several patterns tells, for every word, the first pattern the word belongs to, or 0 |
| DfaPatterns.DfaInfo.DfaParse | dfa/dfa.c:1119-1144 | a pattern is added as the last one; an error adds nothing and means the tokens are of no pattern |
| DfaPatterns.DfaInfo.DfaMkState | dfa/dfa.c:1146-1153 | from patterns to automaton: running it tells, for every word, the first pattern that holds it |
| GrepLevels.LevelStart | dict/lookgrep.c:417-432 | before anything is read, each level holds the states that many transitions away |
| GrepLevels.LevelStep | dict/lookgrep.c:215-241 | the recurrence over exact match, insertion, substitution and deletion gives, for every level, exactly the states reached by a text within that Levenshtein distance |
| GrepLevels.DeadForever | dict/lookgrep.c:297-303 | when the top level is empty, no continuation can match, so cutting the branch loses nothing |
| GrepLevels.LevPrefix | dict/lookgrep.c:215-241 | a common beginning adds nothing to the edit distance |
| GrepBits.Shift | dict/lookgrep.c:96-205 | the loops over words and bits set exactly the states one transition away, on a character or on any |
| GrepBits.Move | dict/lookgrep.c:215-241 | one move turns the rows of a text into those of the text with one more character, at every level |
| LookGrep.Grep | dict/lookgrep.c:244-372 | below a page, exactly the stored keys that are taken are reported, each once, in ascending order, with their information, up to the one at which the caller stops; their names are read from the buffer up to its end mark |
| LookGrep.DeadTakes | dict/lookgrep.c:297-303 | when the level in use at a character is empty, no key that goes on is taken, the unedited start included |
| DfaBegins.Way | dfa/dfa.c:648-750 | from every position of a tree there is a way to a last one |
| DfaBegins.RunBegins | dfa/dfa.c:762-842 | the automaton gets through a text exactly when some word of a rule begins with it |
| LookupGrep.StartLevels | dict/lookgrep.c:417-432 | the rows prepared before the search are the levels of the empty text |
| LookupGrep.AcceptsClose | dict/lookgrep.c:374-443 | a level of the built automaton accepts a text exactly when some word of the rules is that close to it |
| LookupGrep.DictLookupGrep | dict/lookgrep.c:374-443 | from rules to report: exactly the stored keys within range edits of a word of the rules whose first characters begin some word unedited, each once, in order, up to the one at which the caller stops |
| LookupGrep.TakesHits | dict/lookgrep.c:244-372 | what the search takes is what the words of the rules say |
| PatternGrep.HitsOne | dict/lookgrep.c:374-443 | what is to be reported for the rule that was parsed is what the words of the pattern say |
| PatternGrep.CloseExact | dict/lookgrep.c:374-443 | with no edits the keys reported are the words of the pattern |
| PatternGrep.HitsClose | dict/lookgrep.c:291-298 | when every character may be edited, a key is reported exactly when it is close to a word |
| PatternGrep.HitsRest | dict/lookgrep.c:291-298 | when all words of the pattern share the characters that must not be edited, a key is reported exactly when it starts with them too and its rest is close to the rest of a word |
| PatternGrep.StartOfAnother | dict/lookgrep.c:291-298 | without that, a key is reported whose start is that of another word than the one it is close to |
| PatternGrep.DictLookupPattern | dict/lookgrep.c:374-443 | from the tokens of a pattern to the report: exactly the stored keys to be reported for the words of the pattern; an error exactly when the tokens are of no pattern or something follows them |
| CfFile.ShadowFile.LookupHash | bfile/cfile.c:322-376 | the search through buckets in memory and on file finds the shadow block of a block number exactly when it has one |
| CfFile.ShadowFile.NewHash | bfile/cfile.c:448-514 | a block number that has none gets the next shadow block, in a free slot or a new bucket; all others keep theirs |
| CfFile.ShadowFile.FlushBuckets | bfile/cfile.c:213-236 | evicting buckets, oldest first, leaves the block map as it is; dirty ones are written |
| CfFile.ShadowFile.MovetoFlat | bfile/cfile.c:390-431 | after the move the flat index holds the block map the buckets held |
| CfFlat.MoveSlot | bfile/cfile.c:378-421 | each pair moved appears in the flat index, which otherwise stays as it is, and no bucket is overwritten |
| CfFlat.NewWord | bfile/cfile.c:440-446 | a new block in the flat index gets a shadow of its own, below the next free one |
| CfStore.DecodeEncode | bfile/cfile.c:268-284 | a bucket read back is the bucket written |
| CfStore.BucketLayout | bfile/cfile.h:33-38 | where the block numbers, their shadow blocks, the number of the bucket and the next one stand in it |
| CfFile.ShadowFile.CfRead | bfile/cfile.c:541-567 | reading gives the part of the shadow block, or all of it, and tells when there is none |
| CfFile.ShadowFile.CfWrite | bfile/cfile.c:578-613 | writing makes the data the latest bytes of the block and changes no other byte; the register is not touched |
| CfFile.ShadowFile.BfRead | bfile/bfile.c:216-230 | every byte that was written or is in the register reads as its latest value |
| CfData.WriteNew | bfile/cfile.c:594-613 | the first write of part of a block keeps the rest of what the register held |
| CfFile.ShadowFile.Close | bfile/cfile.c:615-643 | closing leaves buckets, hash array and header on file; field by field the header reads back as state, next block, block size, 199 chains, first bucket 8, next bucket and flat bucket; the heads of the 199 chains start in block 1 and a flat index at the end of the buckets, 32 words to a block |
| CfFile.HeadFields | bfile/cfile.h:56-65 | the fields of the header by their place in its words |
| CfIndex.HashGroups | bfile/cfile.c:189-192 | eight blocks in a row share a chain, and 199 chains take turns |
| CfFile.ShadowFile.constructor | bfile/cfile.c:81-187 | a new shadow file reads as its register; one opened again has the block map and the latest bytes it had when it was closed |
| CfFile.ShadowFile.CommitHash | bfile/commit.c:130-185 | the loop over buckets copies every shadow block home; after each copy everything reads as before and the file could be opened again |
| CfFile.ShadowFile.CommitFlat | bfile/commit.c:187-255 | the loop over the flat index does the same |
| CfFile.ShadowFile.Commit | bfile/commit.c:257-274 | with no bucket in memory the register becomes the committed one, and the file stays valid; otherwise nothing happens |
| CfCommit.CopyStep | bfile/commit.c:150-176 | copying one more block home is one more step of a partial commit, holes included |
| CfCommit.CommitKeepsView | bfile/commit.c:130-255 | at every step of a commit every block reads through the shadow as before |
| CfCommit.CommitComplete | bfile/commit.c:257-274 | after a complete commit the register alone holds what was read through the shadow |
| CfCommit.CommitRestarts | bfile/bfile.c:277-319 | a commit started again after any number of steps ends with the same register |
| CfCommit.CommitTwice | bfile/bfile.c:277-319 | committing twice is committing once |
| CfFile.CommitAgain | bfile/bfile.c:277-319 | opening a file whose commit was cut short and committing it gives the register of a commit in one go |
| KeyCodec.DecodeInt | util/it_key.c:174-187 | reads back any number that was coded seven bits to a byte |
| KeyCodec.DecodeKey | util/it_key.c:237-253 | reads back the key that was coded against the same remembered key, and remembers what the coder does |
| KeyCodec.KeyLength | index/key_block.c:126-131 | a coded key fits the seven bits kept for its length |
| KeyRun.WriteRun | index/key_block.c:310-366 | a batch is written with each name once, and the coding starts anew with each name |
| KeyRun.KeyFile.Getc | index/kinput.c:160-172 | bytes come one after the other across chunks, up to the end, whatever the length of the file |
| KeyRun.KeyFile.Read | index/kinput.c:174-222 | reading a run file gives the postings that were written, in order, and then its end |
| KeyRun.RunIsBytes | index/key_block.c:102-150 | a run file holds nothing but bytes |
| KeyHeap.RootLeast | index/kinput.c:301-345 | in the order the heap keeps, nothing is below its root |
| KeyHeap.KeyHeap.Insert | index/kinput.c:326-345 | sifting up keeps the order of the heap and adds the posting as the first of its run; name, flag and key fit the buffer |
| KeyHeap.KeyHeap.Delete | index/kinput.c:301-324 | sifting down keeps the order and removes the root only |
| KeyHeap.KeyHeap.ReadOne | index/kinput.c:347-365 | the posting read is of the least name and key left in any run; nothing else is lost |
| KeyMerge.KeyReader.NextItem | index/kinput.c:509-542 | hands out the postings of a name one by one and stops at the first of another name, which is kept for later |
| KeyMerge.KeyReader.Next | index/kinput.c:408-507 | with one key of lookahead, each key of a name is handed out as often as its inserts and deletes differ |
| KeyMerge.GroupNet | index/kinput.c:456-493 | any mix of inserts and deletes of a key comes to as many copies as they differ by |
| KeyMerge.KeyReader.MergeAll | index/kinput.c:593-645 | what is handed out is, for each name and key in ascending order, exactly the difference of inserts and deletes, of its sign |
| KeyFlow.IndexMerge | index/kinput.c:714-804 | merging run files gives the netted sum of all their postings |
| KeyFlow.DivisionIrrelevant | index/kinput.c:714-804 | two divisions of the same postings into runs give the same merged postings |
| KeyOrder.BeforeMeans | util/it_key.c:73-125 | postings are ordered by name and then by key, each by where they differ first |
| KeyOrder.NettedUnique | index/kinput.c:408-507 | the sums of the keys alone decide what comes out |
| KeyBlock.Block.Write | index/key_block.c:258-307 | the posting written is the one of the key: decoding its name gives the index and then the term, its key gives the static rank, the record and the place, and it is an insert or a delete as asked; the buffer is written out first exactly when 1024 bytes are not free, so pointers and postings never meet |
| KeyBlock.Block.Flush | index/key_block.c:310-366 | the buffer becomes a sorted run, no posting lost; an empty buffer makes none |
| KeyBlock.TermFits | index/key_block.c:258-307 | a term of up to 512 bytes fits the buffer of the block and that of the merge |
| KeyBlock.NamesApart | util/su_codec.c:31-62 | terms of different indexes have different names |
| KeyBlock.SuDecode | util/su_codec.c:64-76 | the loop reads the value of a code at the start of a name: bytes of 65 and more go on with six bits each, a smaller one ends it |
| KeyBlock.SuBack | util/su_codec.c:31-76 | decoding the code of an index number before any term gives the number and the length of the code |
| KeyBlock.SuTable | util/su_codec.c:51-61 | the codes by example, as the table in the source gives them, but for index 0 |
| KeyBlock.SuZero | util/su_codec.c:42-48 | index 0 has no code, so a term of it is read as one of another index |
| KeyBlock.NullApart | util/su_codec.c:35-41 | no name of an index starts with the code of the index that does not exist |
| KeyFlow.MergeBlock | index/key_block.c:368-407 | flushing and merging delivers the netted sum of everything written, wherever buffers were cut |
| KeyFlow.FlushRecordKeys | index/extract.c:1462-1500 | what is written in lockstep comes to the same sums as deleting all old keys and inserting all new ones; nothing is written for a place at which old and new key agree, so nothing for an unchanged record |
| KeyFlow.SkipsIrrelevant | index/extract.c:1485-1491 | the pairs that are skipped do not change what is merged |
| KeyFlow.IndexRecords | index/extract.c:1462-1500 | changing the keys of many records and merging gives the netted sum of all old keys as deletes and all new keys as inserts |
| KeyFlow.MergeThreaded | index/key_block.c:368-407 | merging what the sorting thread has sorted when a final flush that was called returns gives the netted sum of everything written, in every interleaving |
| KeyThreads.BatchesInOrder | index/key_block.c:368-407 | in every interleaving batches are sorted once each in order, at most one is pending, and the one being sorted is in the buffer that is not being filled, as it was handed over |
| KeyThreads.FlushReturned | index/key_block.c:368-407 | from its call to its return, in every interleaving, a flush hands over exactly what was in the buffer and leaves it empty; when a final one returns, everything written has been sorted |
| KeyThreads.DestroyDropsNone | index/key_block.c:225-256 | from its destruction on a block is used no more, and when it is over every batch handed over has been sorted and the thread is gone |
| KeyThreads.StepKeeps | index/key_block.c:162-187 | every step of either thread, spurious wake-ups included, keeps the invariant of mutex, flags and buffers |
| KeyThreads.NeverStuck | index/key_block.c:162-187 | inside a flush or a destruction one of the two threads can always go on |
| KeyThreads.FlushReturns | index/key_block.c:368-407 | every flush and destruction ends within a bounded number of steps, however the threads take turns |
| MarcWrite.Measure | data1/d1_marc.c:254-321 | the first pass finds the base address and the length of the exchange form |
| MarcWrite.NodeToMarc | data1/d1_marc.c:226-466 | the second pass fills exactly the buffer the first one measured, with label, directory and fields |
| MarcRecord.SmallExchange | data1/d1_marc.c:226-466 | the printed form of a small record, byte by byte |
| MarcRecord.EntryThere | data1/d1_marc.c:440-459 | each directory entry has the tag and the length of its field and leads to where it is |
| MarcRead.ReadField | index/mod_grs_marc.c:205-332 | a field that was printed is read back with its indicators, codes and texts; of any other bytes the field has the tag, and as many indicators as the label says unless it is a control field |
| MarcRead.ScanDirectory | index/mod_grs_marc.c:151-172 | the scan stops at the first place that holds the end mark or no sound entry, and there is no record when the bytes end before; for a printed record that is the mark that ends its directory |
| MarcRead.ReadFields | index/mod_grs_marc.c:178-335 | the fields listed are read in order up to the first whose data do not lie in the record; for a printed record they are all its fields |
| MarcRead.ReadBytes | index/mod_grs_marc.c:60-98 | the bytes of a record start with the first digit of the stream, are as many as they say, and more only up to an end mark, the end of the buffer or of the stream; there are none when at the first digit stands no length of 25 or more that the stream has |
| MarcRead.ReadMarc | index/mod_grs_marc.c:40-335 | of a stream with a printed record after any bytes that are no digits, the reader skips those, takes exactly the record and returns its fields |
| MarcRead.RoundTrip | data1/d1_marc.c:226-466 | printing a well-formed record and reading it back gives its fields with indicators padded, codes of one character and no empty texts |
| MarcRecord.RecordSame | data1/d1_marc.c:226-466 | that is the record itself exactly when every field has contents, no control text is empty, indicators and codes have their lengths, and the leader tells the lengths |
| MarcRecord.PrintsAgain | data1/d1_marc.c:226-466 | a record that was read prints as it did before exactly when no control field was printed with empty text |

## Left out

- DictInsert.Insert: keys are not empty and hold bytes 1 to 255, information has 1 to 127 bytes; page numbers and sizes are unbounded integers.
- DictScan.Scan: calls before and after the term are two lists, so how they interleave is not stated; the answer of the callback depends on its arguments only.
- DictCache.PageCache.ReadP: a page number that was skipped reads as zeros once a later page is on file, and is not found before; the compact mode is left out, and the file below is an array of blocks; `Change` stands for users that change a block they have just read and then touch it.
- DfaStates.StateTable.AddState: a state is its number and the table a sequence; blocks of states and their sorting by number are not modelled.
- Dfa.RunAccepts: `rule_nno`, the rule for words that start a line, is not modelled, because its choice depends on the order of rules.
- DfaSyntax.Parser.DoParse: a pattern is a sequence of tokens; the lexer, with its quoting, classes in brackets and character mapping, is left out.
- DfaSyntax.Parser.Expr4: the wildcard token falls through to the error branch (dfa/dfa.c:236-240), so no pattern has one; the model does the same.
- DfaPatterns.DfaInfo.AnySetIncludesNl: called before the first pattern, as its one caller does (dict/lookgrep.c:393).
- LookGrep.Grep: the position of the last character looked at (`max_pos`) is not computed; the answer of the callback depends on what was reported only.
- PatternGrep.DictLookupPattern: whether something follows the tokens, such as a blank outside quotes, is a parameter (dict/lookgrep.c:404-410).
- LookupGrep.DictLookupGrep: keys are at most 1024 characters long, the size of the prefix buffer.
- CfFile.ShadowFile.BfRead: nothing is said of bytes of a block that exist nowhere before a partial first write, because the buffer is not cleared (bfile/cfile.c:601-609).
- CfFile.ShadowFile.LookupHash: how hits and misses are counted is not stated, only that a hash with fewer than two hits for a miss becomes flat before its next new block.
- CfFile.ShadowFile.Commit: one file at a time; reading the list of files and removing shadow files afterwards are left out.
- KeyHeap.KeyHeap.Insert: names have at most 717 bytes, as the assertion of the source demands (index/kinput.c:331).
- KeyBlock.Block.Write: the static rank and the record number are parameters; keys have one to five parts below 2^63.
- KeyBlock.Sort: stands for the library's sort; two keys of different lengths are compared as sequences, where the source reads parts beyond the shorter one.
- KeyMerge.KeyReader.MergeAll: the inverted lists and the dictionary that take the merged keys are not part of it; what is handed out is a list.
- KeyThreads.BatchesInOrder: postings are abstract, and sorting a batch is one step that takes a while.
- MarcRead.ReadMarc: node trees are records of fields; tags, indicators and texts hold no zero byte, and the lengths a MARC table can force are not modelled.
- MarcWrite.NodeToMarc: records have the shape of MARCXML, with one data node for each control field or subfield; the older shape, comments and selection of fields are left out.
- `bfile/mfile.c`: part files, quotas and capping; a file is an unbounded array of fixed-size blocks with holes of zeros. I/O errors, logging and exits are left out everywhere.
- `dict/lookupec.c`, `dfa/grepper.c`, `dfa/agrep.c`, `dfa/lexer.c`, `dict/dcompact.c`: older or stand-alone variants.
- `isamb/`, `isamc/`, record filters, Explain, configuration readers and statistics.
- Integer widths: 32-bit and 64-bit overflow is not modelled, except in the coding of keys.
