# FakeLogger scripts, modelled in Dafny

FakeLogger is a set of three small Python 2 scripts. This project models each of them:

- `createFakeLogData.py` builds three identifier pools when the module loads. There are 1000 user ids `user_00000000` … `user_00000999` and 1000 device ids `device_…` numbered the same way. There are also 2000 random dotted-quad IP addresses, de-duplicated through `set`. Each `Customer()` pops one entry from each pool: the IP first, then the user id, then the device id. `repr` of a Customer is `User <userId>: ip = <ip>; device = <deviceId>`.
  Modelled in `fake_log_data.dfy` (module `FakeLogData`). The pools as values, the allocation as a function, and the module-level lists as the class `Allocator`, whose method `NewCustomer` updates them in place. The numerals come from `numerals.dfy` (module `Numerals`) and the facts about `set` from `sequences.dfy` (module `Sequences`).
- `pseudoRandom.py` writes `size` hex characters, then overwrites randomly drawn positions with newlines (two exceptions below). The text is a run of 32-character md5 hex digests. The md5 object absorbs the seed once more before each digest, and the last digest is cut short.
  Modelled in `pseudo_random.dfy` (module `PseudoRandom`). The md5 object and the output file are classes. The two loops are methods checked against the specification functions `Layout` and `WriteNewlines`.
- `search.py` counts the lines that contain `bbb`.
  Modelled in `search.dfy` (module `Search`) as recursive functions and lemmas.

`wrappers.dfy` holds the `Option`, `Result` and `Outcome` datatypes.

Inputs that the scripts take from outside are parameters of the model:

- the octets `random.randint` returns (`IpDraw`);
- the newline positions it returns (`draws`);
- the order `list(set(...))` gives the addresses (`ipPool`, which must be a duplicate-free arrangement of the candidates);
- md5 itself (`hash`, any function whose results are 32 hex characters).

`createFakeLogData.py` keeps addresses unique only by removing duplicates with `set` (line 11). Nothing is retried, so the pool can hold fewer than 2000 addresses.

Two behaviours of `pseudoRandom.py` are modelled as written:

- For `size <= 32` the loop never runs and line 20 reads the unbound `i`, which raises NameError. The file was already truncated and stays empty.
- A newline drawn at position `size` lands just past the text and makes the file one character longer.

## Model

| member | source | states |
|---|---|---|
| `Numerals.Decimal` | createFakeLogData.py:10 | `"{}".format(n)` is a non-empty string of digits with no leading zero |
| `Numerals.ZeroPad` | createFakeLogData.py:14 | the padded text is at least `width` long, ends with the digits and starts with nothing but '0' |
| `Numerals.ParsePadded` | createFakeLogData.py:14 | a zero-padded rendering of n reads back as n (leading zeros do not change the value) |
| `Numerals.ParseDecimal` | createFakeLogData.py:10 | an unpadded rendering of n reads back as n |
| `Numerals.DecimalLength` | createFakeLogData.py:14 | a number below 10^w has at most w digits, so the padding makes exactly w |
| `Sequences.ElemsBound` | createFakeLogData.py:11 | `set(xs)` holds at most as many values as `xs` has entries |
| `Sequences.ElemsOfNoDup` | createFakeLogData.py:11 | a list without repetition has as many distinct values as entries |
| `FakeLogData.FormatId` | createFakeLogData.py:14-17 | one id: the prefix, then i zero-padded to 8 digits. IdPoolEntry proves the prefix comes first, the digits read back as i, and there are exactly 8 of them below 10^8 |
| `FakeLogData.IdPool` | createFakeLogData.py:14-17 | the user and device pools have exactly n entries |
| `FakeLogData.IdPoolEntry` | createFakeLogData.py:14-17 | entry i is the prefix followed by digits that read as i, and it is prefix + 8 digits for i below 10^8 |
| `FakeLogData.IdPoolNoDup` | createFakeLogData.py:14-17 | no id occurs twice in a pool |
| `FakeLogData.FormatIp` | createFakeLogData.py:10 | one address `a.b.c.d` from four drawn octets. ParseFormatIp proves it reads back as exactly those four numbers, and IpHasNoSemicolon that it holds no ';' |
| `FakeLogData.IpCandidates` | createFakeLogData.py:10 | one address per draw: 2 * numberOfCustomers of them |
| `FakeLogData.ParseFormatIp` | createFakeLogData.py:10 | each address is four numbers in 0..255 joined by '.', and they are the four numbers drawn |
| `FakeLogData.IpPoolShape` | createFakeLogData.py:10-11 | whatever order `list(set(...))` picks, the IP pool repeats nothing, has at most one entry per draw, contains every drawn address, and holds only dotted quads |
| `FakeLogData.InitialPools` | createFakeLogData.py:10-18 | the three pools at module load. IdPool, IdPoolNoDup and IpPoolShape give their length, contents and lack of duplicates |
| `FakeLogData.Allocate` | createFakeLogData.py:22-24 | one Customer() call. AllocateSpec states what it pops, in which order, and which IndexError an empty pool raises |
| `FakeLogData.AllocateSpec` | createFakeLogData.py:22-24 | a Customer is made exactly when no pool is empty. Each pool then loses its last entry, which becomes the matching field, and nothing else changes. Otherwise the first empty pool names the IndexError, and the earlier pops stay done |
| `FakeLogData.AllocateMany` | createFakeLogData.py:22-24 | k successive Customer() calls, stopping at the first IndexError. AllocateManyLength, AllocateManyAt and CustomersDistinct state its results |
| `FakeLogData.AllocateManyLength` | createFakeLogData.py:22-24 | k successive Customer() calls fail exactly when some pool holds fewer than k entries. Otherwise they make k Customers and remove the top k entries of each pool |
| `FakeLogData.AllocateManyAt` | createFakeLogData.py:12-24 | Customer j holds entry j counted from the top of each pool |
| `FakeLogData.CustomersDistinct` | createFakeLogData.py:11-24 | Customers made from duplicate-free pools never share an IP, a user id or a device id |
| `FakeLogData.IdsFromTheTop` | createFakeLogData.py:14-24 | from the module's pools, Customer j gets user and device number 999 - j |
| `FakeLogData.FirstCustomer` | createFakeLogData.py:14-24 | the first Customer gets the last address, `user_00000999` and `device_00000999` |
| `FakeLogData.Customer.Repr` | createFakeLogData.py:26-27 | the text `User <userId>: ip = <ip>; device = <deviceId>`. ParseReprRoundTrip proves it determines the Customer |
| `FakeLogData.ParseReprRoundTrip` | createFakeLogData.py:26-27 | the repr text `User <userId>: ip = <ip>; device = <deviceId>` determines the Customer when the id holds no ':' and the address no ';' |
| `FakeLogData.IdHasNoColon` | createFakeLogData.py:14 | generated ids never contain ':' |
| `FakeLogData.IpHasNoSemicolon` | createFakeLogData.py:10 | generated addresses never contain ';' |
| `FakeLogData.Allocator.constructor` | createFakeLogData.py:10-18 | builds the three pools, which hold no duplicates, with at most 2000 addresses, and with nothing handed out yet |
| `FakeLogData.Allocator.NewCustomer` | createFakeLogData.py:20-24 | pops the pools in place exactly as `Allocate` describes. It keeps the invariant that pools repeat nothing, no two issued Customers share an identifier, and nothing issued is still in a pool |
| `PseudoRandom.Basename` | pseudoRandom.py:12 | the result holds no '/', ends the path, and is preceded in it by '/' unless it is the whole path |
| `PseudoRandom.SeedOf` | pseudoRandom.py:12 | a given seed is used as is. Without one, the seed is the text after the last '/' of the output path |
| `PseudoRandom.Md5.constructor` | pseudoRandom.py:15 | a fresh md5 object has absorbed nothing |
| `PseudoRandom.Md5.Update` | pseudoRandom.py:17 | update appends to what was absorbed, so the digests see the seed repeated |
| `PseudoRandom.Md5.HexDigest` | pseudoRandom.py:18-20 | hexdigest() is 32 hex characters, the digest of everything absorbed so far |
| `PseudoRandom.TextFile.Open` | pseudoRandom.py:14 | opening for writing leaves an empty file at position 0 |
| `PseudoRandom.TextFile.Write` | pseudoRandom.py:18-24 | a write overwrites from the current position, grows the file past its end, and advances the position |
| `PseudoRandom.TextFile.Seek` | pseudoRandom.py:23 | seek moves the position and leaves the contents alone |
| `PseudoRandom.WriteAt` | pseudoRandom.py:23-24 | the written text sits at the position, and every other character is what was there before (or NUL in a gap) |
| `PseudoRandom.FullChunkCount` | pseudoRandom.py:16 | for size > 32 the k full chunks satisfy 32k < size <= 32(k+1). For size <= 32 there are none |
| `PseudoRandom.Chunks` | pseudoRandom.py:16-18 | k chunks are 32k characters |
| `PseudoRandom.ChunkAt` | pseudoRandom.py:15-18 | chunk j is the digest of the seed repeated j+1 times |
| `PseudoRandom.Layout` | pseudoRandom.py:16-20 | the text before the newline phase. LayoutShape and LayoutHex state its length, chunks, tail and alphabet |
| `PseudoRandom.LayoutShape` | pseudoRandom.py:16-20 | for size > 32 the text has exactly `size` characters, chunk j is the digest of the seed repeated j+1 times, and the tail of length 1..32 is the start of the digest of the seed repeated k+1 times |
| `PseudoRandom.LayoutHex` | pseudoRandom.py:15-20 | every character written before the newline phase is a hex digit |
| `PseudoRandom.WriteChunks` | pseudoRandom.py:15-20 | the chunk loop and the tail write `Layout` for size > 32. For size <= 32 they raise NameError with the file still empty |
| `PseudoRandom.NewlineDrawCount` | pseudoRandom.py:22 | there are ceil(size/40) draws for positive size and none otherwise |
| `PseudoRandom.Insert` | pseudoRandom.py:22 | inserting keeps every value and adds the new one |
| `PseudoRandom.Sort` | pseudoRandom.py:22 | `sorted` keeps exactly the drawn values |
| `PseudoRandom.SortSorted` | pseudoRandom.py:22 | `sorted` gives an ascending permutation of the draws |
| `PseudoRandom.NewlinePositions` | pseudoRandom.py:22 | the positions are ceil(size/40) values in 0..size, ascending, each as often as drawn |
| `PseudoRandom.WriteNewlines` | pseudoRandom.py:22-24 | the newline writes at the given positions, in order. NewlinesPlaced states where the newlines land and when the text grows |
| `PseudoRandom.NewlineAt` | pseudoRandom.py:23-24 | one newline write puts '\n' at the position, keeps every other character, and grows the file only at its end |
| `PseudoRandom.NewlinesPlaced` | pseudoRandom.py:22-24 | every chosen position holds '\n', every other keeps its character, and the text grows by one exactly when its own length was chosen |
| `PseudoRandom.WriteNewlineMarks` | pseudoRandom.py:22-24 | the overwrite loop leaves `WriteNewlines` of the text at the sorted draws |
| `PseudoRandom.Output` | pseudoRandom.py:14-24 | the final file for size > 32. OutputShape states its length, its newlines and its hex digits |
| `PseudoRandom.OutputShape` | pseudoRandom.py:16-24 | for size > 32 the file has size + 1 characters exactly when `size` was drawn, and size otherwise. Drawn positions hold '\n', and the rest keep their hex digits |
| `PseudoRandom.Generate` | pseudoRandom.py:12-24 | the whole script: NameError and an empty file for size <= 32. Otherwise the file ends up as `Output` of the seed chosen on line 12 |
| `Search.Contains` | search.py:4-6 | the literal search succeeds exactly when the pattern occurs at some position of the line |
| `Search.MatchingLineMap` | search.py:6 | each line contributes 0 or 1, and 1 exactly when it contains "bbb" somewhere |
| `Search.MatchingLineCount` | search.py:8-9 | the count never exceeds the number of lines |
| `Search.CountAppend` | search.py:9 | the count over two concatenated line lists is the sum of their counts |
| `Search.CountIsMatchingLines` | search.py:9 | the count is the number of lines that contain "bbb" |
| `Search.CountExtremes` | search.py:9 | the count is 0 exactly when no line matches (in particular for no lines), and equals the number of lines exactly when all do |
| `Search.SplitOccurrenceNotCounted` | search.py:6-9 | "bbb" split over two lines is not counted, although the two texts joined contain it |

## Left out

- Random number generation (`random.randint`) is left out: the octets and the newline positions are parameters. For size > 32, `Generate` requires the draws to be what the script asks of `randint(0, size)`: `ceil(size/40)` of them, each in 0..size.
- The order `list(set(...))` gives the addresses is left out, because Python leaves it unspecified. The `Allocator` constructor takes any duplicate-free arrangement of the candidates.
- md5 is left out; its internals are not part of this model. It is the parameter `hash`, and the only thing assumed of it is that it returns 32 hex characters.
- `sorted` is modelled as an insertion sort. Integers have only one ascending arrangement, so the result is the same as Python's.
- Command-line parsing is left out: argparse, the default size of 1024 and the `int` conversion of `size`. `Generate` takes the parsed values.
- Real file I/O is left out: the file system, buffering, closing by `with`, and Python 2's byte strings. The output file is a character sequence with a position, and characters stand for bytes.
- The regular-expression engine of `search.py` is left out. The pattern `bbb` has no metacharacters, so substring search gives the same answer.
- `search.py`'s hard-coded file name and its reading of that file into lines are left out. The count takes the lines as a sequence.
- The `__main__` loop of `createFakeLogData.py`, which prints ten Customers, is left out. `AllocateMany` models the successive `Customer()` calls it makes.
- The log-line format in the header comment of `createFakeLogData.py` is not behaviour of the code and is not modelled.
