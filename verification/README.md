# Deluge and libtorrent: formats, queues and buffers

A model, in Dafny, of those parts of Deluge and of libtorrent in which a fast, stateful or flat form has to agree with a
simple description, and proofs that it does. `dafny verify dfyconfig.toml` checks everything.

| files | what they are about |
|---|---|
| `Bytes` | bytes, decimal numbers, facts about sequences |
| `BencodeGrammar` | the lax bencoding grammar, as trees and the text that they print as |
| `BdecodeScan`, `BdecodeTokens`, `BdecodeReading`, `BdecodeNavigation`, `Bdecode`, `BdecodeErrors` | libtorrent's non-recursive decoder, which writes a flat token array; what each of its errors means |
| `BdecodeNode`, `BdecodeRepaired`, `BdecodeIntegers`, `SoftError` | the cursors into that array and what they remember; arrays repaired after an error; the check for non-canonical input |
| `PythonText`, `DelugeBencode`, `DelugeDecoding`, `DelugeRun` | what Python reads as a number; Deluge's encoder and recursive decoder, what that makes of texts that no encoder writes, and whether it ends |
| `RoundTrip`, `CanonicalText` | from Deluge's encoder to libtorrent's decoder; canonical texts are encoded ones |
| `BandwidthLimit`, `BandwidthQueueEntry`, `BandwidthManager`, `BandwidthTrace`, `BandwidthRun`, `BandwidthLaws` | the token buckets, the queue that shares them out, what holds of whole runs, that the manager's runs are such, and what they come to for limits and peers |
| `Merkle`, `TorrentHashing`, `TorrentLaws`, `MakeTorrent` | the in-place Merkle reduction, v1, v2 and hybrid hashing, which bytes that is about, and the other v1 hasher |
| `Transfer` | Deluge's message framing |
| `ChainedBuffer`, `BitfieldWord`, `Bitfield` | a byte queue over chunks, bits in 32-bit words |
| `DiskIo`, `DiskLedger` | the back-pressure of the simulated disk; its answers, as a list of jobs |
| `Examples` | a few texts, byte by byte |

Loops, fields and arrays of the source are loops, fields and arrays here. Their specifications are functions over trees,
sequences and accounts, and the theorems are about those functions. Where such a function could be wrong in the same way
as the code, a law says what it comes to in other terms: byte order, digits, numbers of bytes, the order of calls. Ghost
parameters carry what a proof needs and the program does not.

## What is assumed

- A buffer is a sequence of bytes; hash functions are arbitrary functions from bytes to bytes. Files are given as their
  contents, in the order in which they are visited.
- The bandwidth channels of a manager are used by that manager only. A channel that no request has waited for may have
  granted bytes at once before, but nothing was charged to it through a queue. Callbacks to peers do not call back into
  the manager. Time does not run backwards.
- The events of the simulated disk do not queue further events while they run; their handlers are posted.
- A memory buffer belongs to one bitfield, and a memory chunk to one chained buffer.
- Links of tokens have 29 bits. After an error the longest one, which is the first, is stored as it is exactly if the
  repaired array has at most 2^29 + 1 tokens, and `Bdecode.SizeFrom` says how many it has. Limits that leave
  `Bdecode.Headroom` make none that large, and the default ones of libtorrent (depth 100, 2000000 tokens) do.

## Findings

Each of these is a property that one would expect and that the code does not have, with its exact condition.

| property | where it fails | members |
|---|---|---|
| Every message is delivered as soon as it is complete | a body of 1 to 4 bytes waits for more data; it holds exactly if no body is that short | `Transfer.TimelyIffNoneShort`, `Transfer.LateInstance` |
| A number or a string that Deluge decodes is one that it encodes | Python's `int()` takes white space around a number, a plus sign and single underscores: ` 1:a`, `1_0:` and ten bytes, `i+5e`; and the key `-0:` is the empty string. A decoded string is an encoded one exactly if there are only digits in front of its colon and all of it is there; a decoded integer exactly if there are only digits and perhaps a minus sign | `DelugeBencode.OnlyEncodedStrings`, `DelugeBencode.OnlyEncodedInts`, `DelugeBencode.NotEncodedButDecoded` |
| `bdecode` ends, in a value or in a `BTFailure` | the key of `d-4:` leads back to the dictionary itself, and so on until Python gives up with an exception that is not caught. A text is decoded to an end exactly if that takes at most six steps for each byte and five more; it is if no key that is read has a negative length that leads back to where the key begins or in front of it | `DelugeRun.NeverEnds`, `DelugeRun.EndsSoonOrNever`, `DelugeRun.ValueEnds`, `DelugeRun.DecodingEnds` |
| Quota is conserved | bytes that a disconnecting peer gives back are lost if the limit of the channel was lifted meanwhile, and bytes handed out while there is no limit are not taken. For given rounds, limits and closes quota is conserved in all runs, whatever is asked for, exactly if no round before the end finds the limit at 0: if one does, a single request of a peer that stays breaks it | `BandwidthTrace.Always`, `BandwidthRun.SomeRunLoses`, `BandwidthTrace.OnlyScheduleCounts`, `BandwidthRun.LostRefund` |
| A refill leaves three seconds' worth of quota at most | a refill that would go beyond 2^31-1 skips that cap, so a channel whose limit was lowered can keep a quota of 2^31-1; but for rounding the cap holds exactly if the refill does not go beyond that number, or the cap does | `BandwidthLimit.CapIff`, `BandwidthLimit.CapIsSkipped` |
| What Deluge writes, libtorrent reads back as the same value | 2^63 becomes 0, a number of 21 digits is refused, and so are lists nested as deep as the depth limit. It holds exactly if the value is within the limits of the decoder (nesting, tokens, size, 20 digits: `WithinLimits`) and all its integers are within 64 bits | `RoundTrip.WriteAndRead`, `RoundTrip.IntegersIff`, `RoundTrip.LargeIntegers`, `RoundTrip.NestsIff` |
| An empty file has no root, as in BEP 52 | `makeinfo` gives it the root of a piece of padding; it holds exactly if no file is empty | `TorrentHashing.TreeRoots` |
| Writers that are told to wait are woken | with a low watermark below 0 or above the high one a wake-up can be lost; none is, in any run, exactly if 0 <= low <= high | `DiskIo.WakeupsIffWellSet` |

Where the code and its comments differ, the code is modelled: after an error `next_item` of a container leads to its own
end token, not behind it (bdecode.cpp:1017-1020); the end that `int_value` passes on is one byte behind its token; the
tests for a negative length (bdecode.cpp:962) and for a link that does not fit (bdecode.cpp:929) cannot succeed and are
not repeated.

## Model

| member | source | states |
|---|---|---|
| Bdecode.Decode | libtorrent-RC_2_0/src/bdecode.cpp:809-1031 | Succeeds exactly if the buffer begins with a value of the lax grammar within all limits; then the tokens are the preorder of that value with links that skip each value, and one end token. After an error: which lexeme of the longest part of a value is wrong and where, how many tokens there are, where reading stopped, offsets that never decrease and leave room for the length of every string, tokens of complete integers only; the first link leads to the end token of its container, cut to 29 bits, and where that cuts nothing off the array can be walked from its first token |
| Bdecode.ReadTokens | libtorrent-RC_2_0/src/bdecode.cpp:832-996 | The loop stops with a complete value, or with the open containers of the longest readable part and the error that the grammar gives; the stack is never pushed beyond the depth limit |
| Bdecode.ReadToken | libtorrent-RC_2_0/src/bdecode.cpp:837-992 | One turn reads exactly the lexeme that the grammar has at this place, with its tokens, links and stack entries, or fails with its error |
| Bdecode.ReadString | libtorrent-RC_2_0/src/bdecode.cpp:940-982 | Finds the header and the length of a string, or the error of the grammar |
| Bdecode.EndSequence | libtorrent-RC_2_0/src/bdecode.cpp:921-932 | Appends an end token and back-patches the link of the container to what follows |
| Bdecode.Terminate | libtorrent-RC_2_0/src/bdecode.cpp:1007-1020 | Ends one open container, after an empty dictionary for a key without a value; the link leads to the end token, cut to 29 bits |
| Bdecode.Unwind | libtorrent-RC_2_0/src/bdecode.cpp:998-1023 | What was open is terminated, by so many tokens; nothing but links changes in the tokens that were there; offsets rise, the last token is an end token, and with no more than 2^29 + 1 tokens the array can be walked |
| Bdecode.NothingFits | libtorrent-RC_2_0/src/bdecode.cpp:835-996 | Where the loop gets stuck, no value within the limits fits the buffer at all |
| BdecodeErrors.AtTheEnd | libtorrent-RC_2_0/src/bdecode.cpp:832-837 | Where nothing is left of the buffer: `unexpected_eof`, there |
| BdecodeErrors.AtLimits | libtorrent-RC_2_0/src/bdecode.cpp:839-844 | `depth_exceeded` exactly if as many containers are open as the limit allows; else `limit_exceeded` if as many tokens were read; both at the next byte |
| BdecodeErrors.AtByte | libtorrent-RC_2_0/src/bdecode.cpp:851-945 | Which error a byte is that neither a string nor an integer begins with: for a key, in place of a value, at the outermost level |
| BdecodeErrors.AtInteger | libtorrent-RC_2_0/src/bdecode.cpp:66-110 | `overflow` exactly for more than 20 digits, else `unexpected_eof` exactly where the buffer ends behind the digits, else `expected_digit`; all behind the digits |
| BdecodeErrors.AtString | libtorrent-RC_2_0/src/bdecode.cpp:940-977 | From the digits of a length, the number that they spell and what is behind them: `overflow`, `expected_colon`, `expected_digit`, `unexpected_eof` and `limit_exceeded`, each exactly when, and where |
| BdecodeErrors.StuckOnce | libtorrent-RC_2_0/src/bdecode.cpp:835-996 | Buffer and limits determine the place where the decoder gets stuck, what is open there, the error and its position |
| Examples.StringExamples | libtorrent-RC_2_0/src/bdecode.cpp:940-963 | The errors of `5:abc`, `12` and `7` |
| Examples.CutIntegerExamples | libtorrent-RC_2_0/test/test_bdecode.cpp:594-617 | The errors of `i`, `i-` and `i10` |
| Examples.NoDigitExamples | libtorrent-RC_2_0/test/test_bdecode.cpp:324-346 | The errors of `ie` and `i-e` |
| BdecodeScan.CheckInteger | libtorrent-RC_2_0/src/bdecode.cpp:66-110 | Accepts an optional minus sign and 1 to 20 digits up to `e`, and else gives the first error, unless more than 20 digits were read, which outweighs it |
| BdecodeScan.ParseInt | libtorrent-RC_2_0/src/bdecode.cpp:161-189 | The value of the digits up to the delimiter, or the exact place where 64 bits overflow |
| Bytes.DecimalOfConcat | libtorrent-RC_2_0/src/bdecode.cpp:161-189 | Digits in front count for ten times as much as often as there are digits behind them |
| BencodeGrammar.ValueIsUnique | libtorrent-RC_2_0/src/bdecode.cpp:809-1031 | A buffer begins with at most one value |
| BencodeGrammar.TreeIsAccepted | libtorrent-RC_2_0/src/bdecode.cpp:849-992 | The stack automaton that the loop follows accepts the lexemes of every value, and needs as many levels as it nests |
| BdecodeNavigation.FlatIsOk | libtorrent-RC_2_0/src/bdecode.cpp:921-932 | The tokens of a value can be walked along their links, wherever in an array they stand |
| BdecodeNavigation.TerminatedIs | libtorrent-RC_2_0/src/bdecode.cpp:1003-1021 | Terminating a container whose inner one is terminated gives one that can be walked |
| BdecodeRepaired.ChildrenAreOk | libtorrent-RC_2_0/src/bdecode.cpp:998-1023 | In an array that can be walked, repaired or not, every child can be walked and its link stays inside; dictionaries have a value for every key and their keys are strings |
| BdecodeRepaired.CountEntries | libtorrent-RC_2_0/src/bdecode.cpp:481-510 | `list_size` and `dict_size` stay in the array and count the entries, whatever is remembered, also after an error |
| BdecodeRepaired.ListAt | libtorrent-RC_2_0/src/bdecode.cpp:431-463 | Item `i`, whatever is remembered, also after an error |
| BdecodeRepaired.DictAtNode | libtorrent-RC_2_0/src/bdecode.cpp:512-561 | Key and value of entry `i`, whatever is remembered, also after an error; the key is a string |
| BdecodeRepaired.IntValue | libtorrent-RC_2_0/src/bdecode.cpp:694-713 | The integer that stands complete in what was read, or 0 beyond 2^63-1, also after an error |
| BdecodeRepaired.DictFind | libtorrent-RC_2_0/src/bdecode.cpp:609-644 | The first entry with that key or none, without leaving the array or the buffer, also after an error |
| BdecodeRepaired.StringValue | libtorrent-RC_2_0/src/bdecode.cpp:715-724 | What is between the length of a string and the next token, all of it inside of what was read, also after an error |
| BdecodeRepaired.DataSection | libtorrent-RC_2_0/src/bdecode.cpp:413-421 | A part of what was read, also after an error |
| BdecodeIntegers.FlatOpenStands | libtorrent-RC_2_0/src/bdecode.cpp:883-905 | Every integer token of a part of a value stands for digits and an `e` that were read in front of the next token |
| BdecodeIntegers.RepairStands | libtorrent-RC_2_0/src/bdecode.cpp:998-1023 | A repair keeps that |
| BdecodeNode.LocatedChild | libtorrent-RC_2_0/src/bdecode.cpp:431-463 | Every child of a container is where the links of those in front of it lead |
| BdecodeNode.Node.ListAt | libtorrent-RC_2_0/src/bdecode.cpp:431-463 | Item `i`, whatever was looked up before |
| BdecodeNode.Node.ListSize | libtorrent-RC_2_0/src/bdecode.cpp:481-510 | The number of items, whatever was looked up before |
| BdecodeNode.Node.DictAtNode | libtorrent-RC_2_0/src/bdecode.cpp:512-561 | Key and value of entry `i`, whatever was looked up before |
| BdecodeNode.Node.DictSize | libtorrent-RC_2_0/src/bdecode.cpp:571-607 | The number of entries, whatever was looked up before |
| BdecodeNode.Node.DictFind | libtorrent-RC_2_0/src/bdecode.cpp:609-644 | The value of the first entry with that key, or none if there is none |
| BdecodeNode.Node.IntValue | libtorrent-RC_2_0/src/bdecode.cpp:694-713 | The number, or 0 if its magnitude is beyond 2^63-1 |
| BdecodeNode.Node.StringValue | libtorrent-RC_2_0/src/bdecode.cpp:715-724 | The contents of the string |
| BdecodeNode.Node.DataSection | libtorrent-RC_2_0/src/bdecode.cpp:413-421 | Exactly the bytes that the value was read from |
| BdecodeNode.AskAll | libtorrent-RC_2_0/src/bdecode.cpp:431-607 | Any lookups in any order answer as a walk that remembers nothing |
| SoftError.HasSoftError | libtorrent-RC_2_0/src/bdecode.cpp:312-400 | True exactly if the value is not canonical: a length or an unsigned integer with a leading zero, or dictionary keys that are not in byte order or repeated, at any depth |
| SoftError.KeysInOrder | libtorrent-RC_2_0/src/bdecode.cpp:356-392 | Comparing adjacent keys decides whether all keys increase |
| Bytes.LessIff | libtorrent-RC_2_0/src/bdecode.cpp:379-392 | One string comes before another exactly if it is the beginning of it, or has the smaller byte where they first differ |
| CanonicalText.EncodedIff | libtorrent-RC_2_0/src/bdecode.cpp:312-400 | The bytes of a value are those that some value is encoded as, if and only if the check finds no soft error in it and no number has a zero behind a minus sign |
| DelugeBencode.Bencode | deluge-develop/deluge/bencode.py:98-147 | The pieces appended to the shared list join to the recursive encoding |
| DelugeBencode.EncodeDict | deluge-develop/deluge/bencode.py:121-130 | A dictionary is written with all its keys, each in front of those that are greater in byte order |
| DelugeBencode.SortedIff | deluge-develop/deluge/bencode.py:121-123 | A sequence of all keys is in byte order exactly if it is the sorted one |
| DelugeBencode.Bdecode | deluge-develop/deluge/bencode.py:78-84 | The loops over lists and dictionaries compute the recursive decoding |
| DelugeBencode.Read | deluge-develop/deluge/bencode.py:46-75 | One value at an offset and the offset behind it, or the failure, with all that `int()` takes for a number; or that a key leads back |
| DelugeBencode.RoundTripInContext | deluge-develop/deluge/bencode.py:26-84 | Decoding finds an encoded value whatever stands in front of it and behind it |
| DelugeBencode.RoundTrip | deluge-develop/deluge/bencode.py:78-147 | `bdecode(bencode(v)) == v`, with nothing left over |
| DelugeBencode.PrefixFree | deluge-develop/deluge/bencode.py:98-147 | No text begins with the encodings of two values |
| PythonText.PlainIsRead | deluge-develop/deluge/bencode.py:26-43 | `int()` reads digits, with a minus sign or not, as the number that they write |
| PythonText.WhiteSpaceAround | deluge-develop/deluge/bencode.py:26-43 | White space around a number makes no difference to `int()` |
| PythonText.PyIntReads | deluge-develop/deluge/bencode.py:26-43 | A sign or none and digits in groups between single underscores, with white space around, are read as the number that the digits write |
| PythonText.PyIntParts | deluge-develop/deluge/bencode.py:26-43 | And nothing else is |
| DelugeBencode.OnlyEncodedInts | deluge-develop/deluge/bencode.py:26-34 | An integer that is decoded is an encoded one if and only if there are only digits, and perhaps a minus sign |
| DelugeBencode.OnlyEncodedStrings | deluge-develop/deluge/bencode.py:37-43 | A string that is decoded is an encoded one if and only if there are only digits in front of the colon and all of it is there |
| DelugeBencode.NotEncodedButDecoded | deluge-develop/deluge/bencode.py:26-43 | `-0:`, ` 1:a`, `1_0:` with ten bytes, and `i+5e` are decoded |
| DelugeDecoding.AnyDictionary | deluge-develop/deluge/bencode.py:54-59 | A dictionary is decoded whatever the order of its keys, and of several values for one key has the last |
| DelugeDecoding.ContainersEnd | deluge-develop/deluge/bencode.py:46-59 | A list or dictionary that is decoded ends inside of the text, with its `e` |
| DelugeRun.AtIsSlice | deluge-develop/deluge/bencode.py:46-59 | `x[f:f + 1]` is a byte or nothing, for offsets of either sign |
| DelugeRun.ValueEnds | deluge-develop/deluge/bencode.py:46-75 | Step by step, with offsets of either sign, the decoders come to the recursive decoding, unless a key leads back |
| DelugeRun.DecodingEnds | deluge-develop/deluge/bencode.py:78-84 | Without a key whose negative length leads back decoding ends, in the value or the failure; so every encoded value is decoded |
| DelugeRun.EndsSoonOrNever | deluge-develop/deluge/bencode.py:46-75 | On any text the decoder ends within six steps for every byte and five more, or never; more steps do not change how it ends |
| DelugeRun.NeverEnds | deluge-develop/deluge/bencode.py:54-59 | `d-4:` is decoded for ever |
| DelugeBencode.OrderIsUnique | deluge-develop/deluge/bencode.py:121-123 | There is one order of a set of keys, so that the encoding is well defined |
| Examples.DictExample | deluge-develop/deluge/bencode.py:121-130 | `d1:ai1e1:bi2ee` |
| Examples.ListExample | deluge-develop/deluge/bencode.py:98-119 | `li-3e2:abe` |
| RoundTrip.RenderIsEncoding | deluge-develop/deluge/bencode.py:98-147 | The encoding of every value is the text of a tree |
| RoundTrip.FitsIff | libtorrent-RC_2_0/src/bdecode.cpp:809-1031 | libtorrent's grammar and limits take an encoding exactly if its size, nesting, tokens and digits are within them, and only as the tree of the value |
| RoundTrip.ReadBack | libtorrent-RC_2_0/src/entry.cpp:421-455 | The conversion of a node into an entry gives the value of the tree below it |
| RoundTrip.LastEntryCounts | libtorrent-RC_2_0/src/entry.cpp:421-455 | Of several entries with one key the last one counts |
| RoundTrip.ValueOfTree | libtorrent-RC_2_0/src/bdecode.cpp:694-713 | The tree of a value has that value, with 0 for integers beyond 64 bits |
| RoundTrip.ClippedIff | libtorrent-RC_2_0/src/bdecode.cpp:694-713 | Nothing is lost exactly if all integers are within 64 bits |
| RoundTrip.WriteAndRead | libtorrent-RC_2_0/src/bdecode.cpp:809-1031 | What Deluge writes, for any value, libtorrent accepts exactly if it is within the limits; then it consumes all of it, finds no soft error, and reads it back unchanged exactly if all integers are within 64 bits |
| RoundTrip.IntegersIff | libtorrent-RC_2_0/src/bdecode.cpp:694-713 | An integer is accepted exactly below 10^20, and read back as it is exactly up to 2^63-1, in magnitude |
| RoundTrip.LargeIntegers | libtorrent-RC_2_0/src/bdecode.cpp:66-110 | 2^63 is accepted and becomes 0, 10^20 is refused |
| RoundTrip.NestsIff | libtorrent-RC_2_0/src/bdecode.cpp:837-840 | Lists in lists are accepted exactly if there are fewer levels than the depth limit |
| BandwidthLimit.RefilledBounds | libtorrent-RC_2_0/src/bandwidth_limit.cpp:64-86 | A refill adds no more than the rounded entitlement and never makes a quota negative |
| BandwidthLimit.RefillIsRounded | libtorrent-RC_2_0/src/bandwidth_limit.cpp:64-86 | A refill adds limit times time to the nearest byte, unless the quota comes to a cap, and never more |
| BandwidthLimit.CapIff | libtorrent-RC_2_0/src/bandwidth_limit.cpp:72-83 | A refill leaves three seconds' worth, but for rounding, exactly if it does not go beyond 2^31-1 or the cap does |
| BandwidthLimit.CapIsSkipped | libtorrent-RC_2_0/src/bandwidth_limit.cpp:72-75 | At 1000 bytes a second a quota of 2^31-1 stays |
| BandwidthLimit.BandwidthChannel.UpdateQuota | libtorrent-RC_2_0/src/bandwidth_limit.cpp:64-86 | The new quota, to the byte, and what is to be distributed, with the books that say why |
| BandwidthLimit.BandwidthChannel.ReturnQuota | libtorrent-RC_2_0/src/bandwidth_limit.cpp:92-98 | Given back, or lost if the channel is not limited |
| BandwidthLimit.BandwidthChannel.UseQuota | libtorrent-RC_2_0/src/bandwidth_limit.cpp:100-107 | Taken, or not counted if the channel is not limited |
| BandwidthLimit.BandwidthChannel.NeedQueueing | libtorrent-RC_2_0/include/libtorrent/aux_/bandwidth_limit.hpp:77-82 | Grants at once exactly if a second's worth of quota is left besides |
| BandwidthQueueEntry.GrantIsLeast | libtorrent-RC_2_0/src/bandwidth_queue_entry.cpp:54-74 | A grant is the least of what is lacking and of the shares of the limited channels, and is one of them |
| BandwidthQueueEntry.AssignBandwidth | libtorrent-RC_2_0/src/bandwidth_queue_entry.cpp:54-74 | The request gets its grant, and every channel is charged with it as often as it is listed |
| BandwidthManager.SharesWithinQuota | libtorrent-RC_2_0/src/bandwidth_manager.cpp:185-217 | Shares of a quota in proportion to priorities, each rounded down, add up to no more than it |
| BandwidthManager.WithinQuota | libtorrent-RC_2_0/src/bandwidth_manager.cpp:185-217 | What a round hands out of a channel is within what the channel distributes |
| BandwidthManager.Manager.RequestBandwidth | libtorrent-RC_2_0/src/bandwidth_manager.cpp:91-128 | Granted at once exactly if no channel is scarce; else queued for the scarce ones, while the others have paid |
| BandwidthManager.Manager.UpdateQuotas | libtorrent-RC_2_0/src/bandwidth_manager.cpp:142-225 | A round: those that leave pay back, every channel that is waited for is refilled once and shared out, those that are done are called back, last one first; all invariants are kept |
| BandwidthManager.DropDisconnecting | libtorrent-RC_2_0/src/bandwidth_manager.cpp:158-183 | Erasing from the queue while walking it takes out exactly the disconnecting requests and clears the counters of the others' channels |
| BandwidthManager.CountPriorities | libtorrent-RC_2_0/src/bandwidth_manager.cpp:185-194 | Every channel that is waited for is collected once, and its counter is the sum of the priorities |
| BandwidthManager.AssignAll | libtorrent-RC_2_0/src/bandwidth_manager.cpp:201-217 | Every request gets its share in turn; the done ones leave, and `queued_bytes` follows |
| BandwidthManager.Manager.Close | libtorrent-RC_2_0/src/bandwidth_manager.cpp:51-65 | All that wait are called back with what they have |
| BandwidthManager.SharedSettles | libtorrent-RC_2_0/src/bandwidth_manager.cpp:196-217 | Sharing out makes no quota negative and keeps the books balanced |
| BandwidthManager.RoundEnds | libtorrent-RC_2_0/src/bandwidth_manager.cpp:158-225 | After a round every request waits or was called back as often as before, and none got more than it asked for |
| BandwidthRun.Run | libtorrent-RC_2_0/src/bandwidth_manager.cpp:51-225 | For every sequence of requests, rounds, limit changes and closes the manager and its channels go through the states of a run: every answer is the one that the state before gives, with the exact share of every request in a round, and every account moves by exactly that. Those that were queued wait or were called back exactly once |
| BandwidthTrace.Always | libtorrent-RC_2_0/src/bandwidth_manager.cpp:51-225 | At every moment of every run, for every channel: the books balance, the quota is not negative, no more is held and was paid than there was and than it was entitled to, and quota is conserved unless there was a round at limit 0 |
| BandwidthTrace.RoundWithinQuota | libtorrent-RC_2_0/src/bandwidth_manager.cpp:185-217 | No round of any run hands out more of a limited channel than its quota after the refill |
| BandwidthTrace.EntitledIsMetered | libtorrent-RC_2_0/src/bandwidth_limit.cpp:71-73 | Over a run entitlements are the limits times the times of the rounds, within half a byte a round, from above and from below |
| BandwidthLaws.RefillsInRound | libtorrent-RC_2_0/src/bandwidth_manager.cpp:158-199 | A round takes back what those that leave had and refills a channel that others wait for, to the byte, for at most three seconds |
| BandwidthLaws.MeteredOut | libtorrent-RC_2_0/src/bandwidth_manager.cpp:142-225 | What is held and was handed out is at every moment within the first quota and what limits and times have metered out |
| BandwidthLaws.SharesInRound | libtorrent-RC_2_0/src/bandwidth_queue_entry.cpp:54-74 | What a request gets in a round is in proportion to its priority, and fills it or is all of its share of a channel, to the byte |
| BandwidthLaws.NothingLeftOver | libtorrent-RC_2_0/src/bandwidth_manager.cpp:185-217 | While nobody gets all that is asked for, less than a byte for each is left of a channel |
| BandwidthLaws.GrantLeavesASecond | libtorrent-RC_2_0/include/libtorrent/aux_/bandwidth_limit.hpp:77-82 | A request waits for exactly those channels that it would leave less than a second's worth of quota; the others pay at once |
| BandwidthLaws.CallsInReverse | libtorrent-RC_2_0/src/bandwidth_manager.cpp:219-224 | Of those that are called back the last one is called first |
| BandwidthLaws.CallsOfRound | libtorrent-RC_2_0/src/bandwidth_manager.cpp:158-225 | A round calls those that leave with nothing, and others with all that they hold, and only when it is all that they asked for or their time is up |
| BandwidthLaws.TwentyRounds | libtorrent-RC_2_0/src/bandwidth_queue_entry.cpp:44-52 | Requests wait in the order in which they were asked for, and one that has waited for twenty rounds holds nothing |
| BandwidthLaws.StaysIff | libtorrent-RC_2_0/src/bandwidth_manager.cpp:201-217 | A request stays in the queue after a round exactly if it is not filled, and holds nothing or has not waited for twenty rounds |
| BandwidthTrace.OnlyScheduleCounts | libtorrent-RC_2_0/src/bandwidth_limit.cpp:92-107 | Whether there is a round at limit 0 before the end does not depend on what is asked for |
| BandwidthTrace.OneRequestLoses | libtorrent-RC_2_0/src/bandwidth_limit.cpp:100-107 | One request in front of a round at limit 0 breaks conservation for good |
| BandwidthRun.SomeRunLoses | libtorrent-RC_2_0/src/bandwidth_limit.cpp:100-107 | Whatever the rounds, limits and closes, if one round before the end finds limit 0 there are requests with which quota is not conserved |
| BandwidthTrace.NobodyWaitsAfterEnd | libtorrent-RC_2_0/src/bandwidth_manager.cpp:51-65 | In no run does a request wait after `close` |
| BandwidthTrace.FreeRoundChanges | libtorrent-RC_2_0/src/bandwidth_limit.cpp:92-107 | A round at limit 0 keeps the books agreeing exactly if the shares that the waiting requests have coming to them hold as much as all requests held before; the quota stays as it is |
| BandwidthRun.LostRefund | libtorrent-RC_2_0/src/bandwidth_limit.cpp:92-98 | A run in which 1000 bytes of a disconnecting peer are lost, because the limit was lifted |
| Merkle.MerkleRoot | deluge-develop/deluge/metafile.py:226-246 | The reduction in place gives the root of the leaves padded to that number, for any number of leaves; a copy leaves the list alone |
| Merkle.ReduceLevel | deluge-develop/deluge/metafile.py:235-245 | One level overwrites or appends without ever reading an overwritten slot |
| Merkle.RootOfPaired | deluge-develop/deluge/metafile.py:235-246 | Going up by one level keeps the root |
| TorrentLaws.LeavesInOrder | deluge-develop/deluge/metafile.py:235-246 | With a hash that changes nothing the root is the leaves from left to right |
| Merkle.TreeOfTrees | deluge-develop/deluge/metafile.py:373-411 | The roots of the parts, padded with the root of padding, have the root of all leaves |
| Merkle.HeightIs | deluge-develop/deluge/metafile.py:218-223 | The next power of two is the least one with room |
| TorrentHashing.TwoLevelsAreOne | deluge-develop/deluge/metafile.py:373-411 | For every non-empty file and piece length of blocks times a power of two, the two-level root is that of one tree over all blocks; files of one piece included |
| TorrentHashing.BlocksAreHashes | deluge-develop/deluge/metafile.py:249-257 | The slices of a buffer are its blocks |
| TorrentLaws.ChunksInOrder | deluge-develop/deluge/metafile.py:249-257 | With a hash that changes nothing the hashes of the chunks are the bytes in order |
| TorrentLaws.FileInOrder | deluge-develop/deluge/metafile.py:373-411 | And the root of a file is all of its bytes, and then 32 zeros for every block up to a power of two |
| TorrentLaws.GoodIff | deluge-develop/deluge/metafile.py:309-312 | The piece lengths that will do for v2 are the powers of two from 16 KiB on |
| TorrentHashing.BufferRoot | deluge-develop/deluge/metafile.py:374-382 | The root of a piece, with the padding of a small file |
| TorrentHashing.Feed | deluge-develop/deluge/metafile.py:362-372 | A buffer of at most a piece carries the running hash on, across the end of a piece |
| TorrentHashing.HashFile | deluge-develop/deluge/metafile.py:356-382 | A file carries the v1 hash on and gives one v2 root per piece |
| TorrentHashing.AddTree | deluge-develop/deluge/metafile.py:404-422 | The root and, if there is more than one piece, the layer of a file |
| TorrentHashing.MakeInfo | deluge-develop/deluge/metafile.py:291-451 | Refuses exactly the piece lengths that will not do; the v1 pieces are the chunks of the padded files one after the other; every non-empty file has the root of one tree; a hybrid torrent of several files has as many v1 pieces as its files have v2 pieces |
| TorrentHashing.FilesAreAligned | deluge-develop/deluge/metafile.py:389-402 | With padding every file starts at a piece boundary |
| TorrentHashing.PieceCountsAgree | deluge-develop/deluge/metafile.py:389-402 | There are as many v1 pieces as v2 pieces in all files |
| TorrentHashing.OneRootPerPiece | deluge-develop/deluge/metafile.py:373-382 | One v2 root for each v1 piece of a file |
| TorrentHashing.ListedLengths | deluge-develop/deluge/metafile.py:349-402 | The listed lengths add up to what was hashed |
| TorrentLaws.FileInStream | deluge-develop/deluge/metafile.py:356-402 | Every file is in the hashed stream as it is, and what follows up to the next piece boundary, if there is padding, is zeros |
| TorrentLaws.ListedInOrder | deluge-develop/deluge/metafile.py:349-402 | The files are listed with their sizes in order; a padding file fills a piece up and is shorter than one, and every file starts at a piece boundary |
| TorrentLaws.LayersAre | deluge-develop/deluge/metafile.py:421-422 | The layers are those of the files that are longer than a piece, by root: the roots of their pieces |
| TorrentHashing.TreeRoots | deluge-develop/deluge/metafile.py:404-420 | What the tree says of every file, an empty one included |
| MakeTorrent.SaveDirectory | deluge-develop/deluge/maketorrent.py:146-179 | The hashes of the chunks of all files one after the other |
| MakeTorrent.SaveFile | deluge-develop/deluge/maketorrent.py:181-192 | The hashes of the chunks of one file |
| MakeTorrent.BothWays | deluge-develop/deluge/maketorrent.py:146-194 | `save` and `makeinfo` give the same v1 hashes for the same files |
| MakeTorrent.PieceSize | deluge-develop/deluge/maketorrent.py:99-105 | The least doubling of 16 KiB that leaves at most 1024 whole pieces, or 8 MiB |
| Transfer.HeaderRoundTrip | deluge-develop/deluge/transfer.py:47-62 | A header gives back its length |
| Transfer.HeaderIsBigEndian | deluge-develop/deluge/transfer.py:19-21 | Behind the version the most significant byte of the length comes first |
| Transfer.HeadersInOrder | deluge-develop/deluge/transfer.py:19-21 | Headers compare, byte by byte, as the lengths do |
| Transfer.WrongVersion | deluge-develop/deluge/transfer.py:91-116 | After a header of another version nothing is left, and the decoder is handed an empty body |
| Transfer.DelugeTransferProtocol.TransferMessage | deluge-develop/deluge/transfer.py:47-62 | Writes the version, the length in big-endian order and the body, and counts them |
| Transfer.DelugeTransferProtocol.DataReceived | deluge-develop/deluge/transfer.py:64-89 | The loop does what the specification of a chunk says |
| Transfer.DelugeTransferProtocol.HandleNewMessage | deluge-develop/deluge/transfer.py:91-116 | Takes a header off the buffer, or drops everything at a wrong version |
| Transfer.AlwaysInStream | deluge-develop/deluge/transfer.py:64-116 | However a stream is cut up, the bodies delivered are the first ones sent, in order and once each, and buffer and pending length stand for the rest |
| Transfer.UndeliveredIsIncomplete | deluge-develop/deluge/transfer.py:79-89 | Nothing that is complete is held back, if the next body is not of 1 to 4 bytes |
| Transfer.TimelyIffNoneShort | deluge-develop/deluge/transfer.py:79-89 | Every complete body is delivered at once, for every way to cut up the stream, exactly if no body has 1 to 4 bytes |
| Transfer.LateInstance | deluge-develop/deluge/transfer.py:79-89 | A body of one byte that is complete and not delivered |
| ChainedBuffer.ChainedBuffer.PopFront | libtorrent-RC_2_0/src/chained_buffer.cpp:42-72 | Drops exactly the first bytes, across chunks |
| ChainedBuffer.ChainedBuffer.Append | libtorrent-RC_2_0/src/chained_buffer.cpp:89-97 | Adds all bytes at the end, or nothing if the last chunk has no room |
| ChainedBuffer.ChainedBuffer.AllocateAppendix | libtorrent-RC_2_0/src/chained_buffer.cpp:102-115 | Hands out the room behind the last bytes, or nothing |
| ChainedBuffer.ChainedBuffer.SpaceInLastBuffer | libtorrent-RC_2_0/src/chained_buffer.cpp:76-84 | The room that is left in the last chunk |
| ChainedBuffer.ChainedBuffer.BuildVec | libtorrent-RC_2_0/src/chained_buffer.cpp:132-149 | Views whose bytes are the first ones of the queue |
| ChainedBuffer.ChainedBuffer.AppendBuffer | libtorrent-RC_2_0/include/libtorrent/aux_/chained_buffer.hpp:130-138 | A chunk at the end |
| ChainedBuffer.ChainedBuffer.PrependBuffer | libtorrent-RC_2_0/include/libtorrent/aux_/chained_buffer.hpp:140-148 | A chunk in front |
| ChainedBuffer.ChainedBuffer.Clear | libtorrent-RC_2_0/src/chained_buffer.cpp:151-159 | Nothing is left |
| ChainedBuffer.ChainedBuffer.WithinCapacity | libtorrent-RC_2_0/src/chained_buffer.cpp:57-69 | Never more bytes than capacity, which are the sums over the chunks |
| BitfieldWord.SwarIsOnes | libtorrent-RC_2_0/src/bitfield.cpp:131-142 | The portable population count gives the number of set bits of a word |
| BitfieldWord.SwarIgnoresByteOrder | libtorrent-RC_2_0/src/bitfield.cpp:131-142 | It does so in either byte order |
| BitfieldWord.SameBits | libtorrent-RC_2_0/src/bitfield.cpp:63-75 | Words with the same bits are equal |
| BitfieldWord.HighestFirst | libtorrent-RC_2_0/include/libtorrent/bitfield.hpp:84-89 | The first bit is the most significant one of a word, the last one the least |
| Bitfield.WordsOfBits | libtorrent-RC_2_0/src/bitfield.cpp:63-75 | Comparing the memory compares the bits |
| Bitfield.Bitfield.Resize | libtorrent-RC_2_0/src/bitfield.cpp:152-177 | Keeps the common front and fills the rest with the given value, with zeros behind the last bit |
| Bitfield.Bitfield.ResizeTo | libtorrent-RC_2_0/src/bitfield.cpp:179-214 | The same with zeros |
| Bitfield.Bitfield.ClearTrailingBits | libtorrent-RC_2_0/include/libtorrent/bitfield.hpp:277-281 | Clears exactly the bits behind the last one |
| Bitfield.Bitfield.Count | libtorrent-RC_2_0/src/bitfield.cpp:126-150 | The number of true bits |
| Bitfield.Bitfield.AllSet | libtorrent-RC_2_0/src/bitfield.cpp:45-61 | True exactly if there are bits and all of them are set |
| Bitfield.Bitfield.Equals | libtorrent-RC_2_0/src/bitfield.cpp:63-75 | True exactly for the same sequence of bits |
| Bitfield.Bitfield.GetBit | libtorrent-RC_2_0/include/libtorrent/bitfield.hpp:84-89 | The bit at an index |
| Bitfield.Bitfield.SetBit | libtorrent-RC_2_0/include/libtorrent/bitfield.hpp:98-103 | Sets that bit and no other |
| Bitfield.Bitfield.ClearBit | libtorrent-RC_2_0/include/libtorrent/bitfield.hpp:92-97 | Clears that bit and no other |
| DiskIo.TestDiskIo.AsyncWrite | libtorrent-RC_2_0/simulation/disk_io.cpp:376-431 | Queues the write or the disk-full answer, and tells whether to wait |
| DiskIo.TestDiskIo.QueueEvent | libtorrent-RC_2_0/simulation/disk_io.cpp:635-649 | Events one after the other, the timer set for the first one |
| DiskIo.TestDiskIo.OnTimer | libtorrent-RC_2_0/simulation/disk_io.cpp:651-668 | Runs the first event and sets the timer for the next one |
| DiskIo.TestDiskIo.CheckBufferLevel | libtorrent-RC_2_0/simulation/disk_io.cpp:670-679 | Wakes all observers once the queue is down to the low watermark |
| DiskIo.ActKeeps | libtorrent-RC_2_0/simulation/disk_io.cpp:376-431 | Every step counts the pending writes, sets the timer, and loses neither a job nor an observer |
| DiskIo.ActKeepsPressure | libtorrent-RC_2_0/simulation/disk_io.cpp:670-679 | With 0 <= low <= high: above the low watermark while writers wait, at most at the high one while none does |
| DiskIo.Reachable | libtorrent-RC_2_0/simulation/disk_io.cpp:635-679 | Both in every reachable state; every job is answered or queued, and every observer told to wait woken or waiting, once and in order |
| DiskIo.NoLostWakeup | libtorrent-RC_2_0/simulation/disk_io.cpp:670-679 | Once the event queue is empty all writers have been woken and all jobs answered |
| DiskIo.EventuallyWoken | libtorrent-RC_2_0/simulation/disk_io.cpp:651-679 | From every reachable state the timer gets there |
| DiskLedger.AnsweredAsGiven | libtorrent-RC_2_0/simulation/disk_io.cpp:376-431 | In every run jobs are answered in the order in which they were given, with an error exactly if they are writes that were given while less than a block was left; and the space, the blocks, the queue and its times are what the jobs leave of them |
| DiskLedger.RefusedAndWritten | libtorrent-RC_2_0/simulation/disk_io.cpp:383-415 | A write to a full disk fails, and one to a disk with room does not |
| DiskLedger.WaitsIff | libtorrent-RC_2_0/simulation/disk_io.cpp:423-431 | With 0 <= low <= high a writer is told to wait exactly if others wait or its block is one too many for the high watermark |
| DiskIo.WakeupsIffWellSet | libtorrent-RC_2_0/simulation/disk_io.cpp:376-431 | No run, with times that do not decrease, loses a wake-up exactly if 0 <= low <= high |

## Left out

- Which texts the keys of a repaired array have: a failing string header leaves the read position advanced (bdecode.cpp:949-964), so the key in front of it can be read as longer than it was. Only its bounds are stated, and `has_soft_error` only for decoded values.
- `print_entry`, `print_string` and the error categories of the decoder: display only. Copying and moving of nodes, and the accessors that wrap `dict_find` and `list_at` with a type test.
- PythonText.PyInt: its limit on the number of digits, which later versions of Python have; and the recursion limit of Python, so that very deep values are decoded here.
- DelugeRun.DecodingEnds: sufficient only, for a key that leads back may lead to a failure, as in `d-3:` (`DelugeRun.BackAndFails`); what decides is `DelugeRun.EndsSoonOrNever`.
- DelugeBencode.Encode: `bool`, `str`, `tuple`, `Bencached` and string keys of the encoder.
- BandwidthManager.Manager.RequestBandwidth: what it says of the channels that paid at once holds for distinct channels, as callers pass them; the books balance for any list.
- Requests in the bandwidth queue are values, as the vector of the source holds them; the assertion that a peer has one request only is not needed. 64-bit overflow of the byte counters and of `limit * dt` is not modelled, nor is the conversion of the time to milliseconds.
- Merkle.NextPow2: exact, where the source takes a logarithm in floating point (metafile.py:218-223), which is exact for powers of two and can be wrong for very large numbers of leaves.
- TorrentHashing.MakeInfo: progress reports, paths and the nesting of the file tree, `private`, `content_type` and certificates.
- Padding files in `TorrentMetadata.save` (maketorrent.py:134-140), and everything that it writes besides the hashes.
- Transfer: compression and serialisation of bodies, and the byte counters beyond what a message adds to them.
- ChainedBuffer: the destruction of holders. `build_vec` asserts that no chunk is empty; here an empty chunk gives an empty view.
- BitfieldWord: words are values in host order; the source wraps every mask in `host_to_network`. The branches of `count` for particular processors, `find_first_set`, `find_last_clear` and `assign` are left out.
- DiskIo: reading, hashing and validating blocks, and the seek times, of which only the delays remain. `async_release_files` calls its handler directly rather than posting it.
- Everything else: sockets, DHT, plugins, configuration, user interfaces, `component.py`, whose timers and deferreds interleave freely, and the documentation generators.
