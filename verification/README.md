# Packet queue, 802.11 framing and protocol tracker: a verified model

This project models the parts of the repository that compute, keep state or follow a protocol, and
proves what they promise, for all inputs and all runs:

* **`PacketList`, `PacketQueue`, `QueueRuns`** - the multiple-precedence packet queue of
  `bcmutils.c`: intrusive singly linked lists with counters, tail pointers and the lazily lowered
  `hi_prec`. Every operation is proved against its effect on one packet sequence per precedence, and
  the laws of whole runs (conservation, order, strict priority) are proved of exactly the steps that
  the methods take.
* **`Crc`, `CrcTables`** - the table-driven CRC-8, CRC-16 and CRC-32 against bit-by-bit polynomial
  division, including the word-at-a-time loop.
* **`Nvram`, `Membytes`** - the in-place NVRAM text compactor and the chunked device memory writer.
* **`Ccm`, `CcmLoops`, `Ccmp`, `Rc4`, `Wep`, `TkipMixing`, `Michael`, `Tkip`, `Bip`** - the
  cryptographic framing of wlantest. Block cipher, CMAC and S-box are arbitrary functions, so what is
  proved is the framing: round trips, injectivity, and every octet or word of it against the standards
  (CCM's blocks, the AAD and the nonce; the states of RC4 and of Michael; the words of TKIP's mixing).
* **`Records`, `Handshake`, `MgmtFrames`, `TdlsTable`, `Injection`** - the wlantest protocol tracker
  on values: which frame does what to the records of BSSes, stations and direct links.
* **`StaEvents`, `BssEvents`, `LinkEvents`** - what every event does to each station, BSS and direct
  link, read off the octets of the frame, without the functions of the tracker; the tracker's step is
  proved to do exactly that.
* **`TrackerRuns`, `IgtkRuns`, `TrackerTables`, `StateRuns`, `FourWay`, `LeavingRuns`, `Reached`** -
  what holds after every run of the tracker: where keys come from, well-formed tables, what changes
  association states, what a complete 4-Way Handshake brings, and runs that lead to the inputs on which
  the tracker's checks fall short.
* **`Stations`, `BssRecords`, `Tracker`** - the same records as objects that the handlers update in
  place. `Tracker.Wlantest.Receive` takes exactly the step of `TrackerRuns.Step`, so what is proved of
  runs holds of the objects.
* **`Counters`, `Sqn`, `Learned`, `Bgscan`** - byte-string counters, the AKA sequence numbers, and the
  learning background scan with its database and file.

Methods follow the loops and in-place updates of the code and are proved against specification
functions; the properties are lemmas about those functions. `Options`, `Octets`, `Arith`, `Bits` and
`Sequences` hold shared vocabulary; `Bits` has the shifts, AND and OR of unsigned numbers as sections
6.5.7, 6.5.10 and 6.5.12 of ISO/IEC 9899:1999 (C99) define them.

## Where the code keeps less than one would expect

Each of these is stated as an exact condition, for all inputs; those about deauthentications, MMIEs
and Setup Confirms come with a run of the tracker that leads to the failing case:

* **A filtered `pktq_pflush` does not repair the tail** (bcmutils.c:272-301). It stays right exactly
  if the flush has no filter, keeps the last packet or empties the list (`KeepsTail`). Queue `a, b`,
  flush `b` and enqueue `x`: `x` is counted but not on the list, so it never leaves
  (`PacketQueue.FlushThenAppend`, `PacketQueue.StaleTailExample`). A stale tail off the list becomes
  right again exactly when the list becomes empty (`QueueRuns.StaleUntilEmpty`).
* **The check and the handler of deauthentications look at different stations** when neither the
  receiver nor the sender is the access point and they differ (rx_mgmt.c:181-248, 954-990). Then an
  unprotected frame takes an associated, protected station out of state 3 after a run of two frames
  (`LeavingRuns.NeverDisturbsExactly`, `LeavingRuns.Comes`). A protected frame that opens under the
  key of the station checked changes that station's state only, exactly if the station acted on is
  the same, is not listed, or is in no state that the frame lowers
  (`LeavingRuns.OpenedOnlyExactly`); `Reached.OpenedLowersOther` is a run of six events and a frame
  that changes the other.
* **A group-addressed leaving frame whose MMIE is not judged counts as valid** (rx_mgmt.c:789-871):
  with a key ID other than 4 or 5, or while the IGTK is not known, its MIC is not looked at.
  `StateRuns.RunGroupLeaving` says exactly which of these frames release the stations of a BSS;
  `Reached.UnjudgedReleases` is one that does, in a BSS with management frame protection.
* **A Setup Confirm with a fast-transition element that is cut short leaves the reverse link**
  (rx_tdls.c:361-431): `TrackerTables.RunReverseGone`, and `Reached.ReverseStays` for a run. A station
  that confirms a link with itself removes the entry it confirmed, unless the element is cut short:
  `TrackerTables.RunSelfConfirm`, `Reached.SelfGoes`.
* **IGTKs with key ID 0 to 3 are learned but never used to verify** (rx_eapol.c:348-432,
  rx_mgmt.c:789-871): `Injection.InjectedAccepted`.
* **The search for a probe frequency does not end** if it starts from index 0 and every supported
  frequency is listed already (bgscan_learn.c:243-262): `Bgscan.SearchEnds`.
* **A scan with more than 50 BSSes of the ESS makes the neighbour relation asymmetric**
  (bgscan_learn.c:471-538): `Learned.ScanSymmetric` has the exact condition, `Learned.FiftyOneExample`
  an input.
* **A frequency of 0 in the database cuts the list of frequencies short** (bgscan_learn.c:211-232):
  `Bgscan.GetFreqs`.
* **Loading a saved database turns the list round** (bgscan_learn.c:101-192); as a map it is the
  same: `Learned.LoadSaved`, `Learned.LoadSavedLookup`.
* **The word-at-a-time `hndcrc32` reads outside its input** exactly if the alignment prefix is longer
  than the input (bcmutils.c:1302-1334), except where the prefix wraps around to address 0 in front of
  no input: `Crc.ReadsExactly` counts what its three loops read over 32-bit pointers. It is four bytes
  too many (`Crc.ReadsTooFar`, `Crc.ReadsTooFarExample`), short of the last word of the address space.
* **A sequence number issued is larger than the last one** exactly if SEQ does not leave its
  48 - `ind_len` bits (hlr_auc_gw.c:545-564): `Sqn.IncreasesExactly`.
* **CCM's 16-bit length and counter fields** hold their values exactly below 65536
  (`Ccm.Be16Exact`); the CCMP round trip holds for longer payloads too, whose length and counters go
  into the fields modulo 65536.
* `dhd_membytes` returns -1 when there is nothing to write, and with an empty pattern it writes the
  NUL of the empty string (`Membytes.MembytesWrite`, `Membytes.PatternByte`).

The 16-byte expansion of WEP keys (wep.c:45-67) is not among them: it indexes the key as textbook RC4
does exactly for lengths that divide 16 (`Wep.ExpansionCycles`), for these RC4 under the expansion is
RC4 under the key (`Wep.ExpandedIsTextbook`), and configured keys have 8 or 16 octets with the IV.

## Model

| member | source | states |
|---|---|---|
| `PacketList.PrecList.Append` | ath6kl/dhdutil/bcmutils.c:161-187 | one list of `pktq_penq`: with the right tail the packet becomes the last of the chain, and the list stays well-formed |
| `PacketList.PrecList.AppendBehindTail` | ath6kl/dhdutil/bcmutils.c:161-187 | whatever the tail: following the links gives the old chain and the packet exactly if the tail was right; behind a tail that is off the list the packet is lost though it is counted |
| `PacketList.PrecList.TakeTail` | ath6kl/dhdutil/bcmutils.c:243-269 | the walk from the head to the tail unlinks the last packet and no other |
| `PacketList.PrecList.Delete` | ath6kl/dhdutil/bcmutils.c:304-334 | found exactly if queued; that one packet is unlinked with its link cleared, and the tail moves to its predecessor only if it was the tail |
| `PacketList.FlushResult` | ath6kl/dhdutil/bcmutils.c:272-301 | the scan with its removals on the way keeps and frees, in order, exactly the packets the filter says |
| `PacketList.StaleTail` | ath6kl/dhdutil/bcmutils.c:272-301 | the tail left by a flush is the last packet kept exactly if there is no filter, the last packet is kept, or nothing is |
| `PacketQueue.FlushThenAppend` | ath6kl/dhdutil/bcmutils.c:161-301 | after a filtered flush the next packet appended is on the list exactly if the flush kept the tail |
| `PacketQueue.StaleTailExample` | ath6kl/dhdutil/bcmutils.c:272-301 | a queue of two packets and a filter whose flush leaves the tail stale |
| `PacketQueue.Pktq.Penq` | ath6kl/dhdutil/bcmutils.c:161-187 | appends to the sequence of one precedence, keeps every list well-formed, the lists disjoint, all counts right and `hi_prec` an upper bound |
| `PacketQueue.Pktq.PenqHead` | ath6kl/dhdutil/bcmutils.c:190-215 | prepends, whatever the tail; the tail changes only if the list was empty |
| `PacketQueue.Pktq.Pdeq` | ath6kl/dhdutil/bcmutils.c:218-240 | the oldest packet of one precedence, or null exactly if it is empty; a stale tail is repaired when the list becomes empty |
| `PacketQueue.Pktq.PdeqTail` | ath6kl/dhdutil/bcmutils.c:243-269 | the newest packet of one precedence whose tail is right, or null exactly if it is empty |
| `PacketQueue.Pktq.Pdel` | ath6kl/dhdutil/bcmutils.c:304-334 | true exactly if the packet is queued at the precedence; then only it is gone |
| `PacketQueue.Pktq.Pflush` | ath6kl/dhdutil/bcmutils.c:272-301 | the sequence becomes what the filter keeps, what it frees is returned in order; the tail stays right exactly if `KeepsTail` |
| `PacketQueue.Pktq.Flush` | ath6kl/dhdutil/bcmutils.c:463-470 | every precedence is filtered; without a filter the queue is empty; all tails stay right exactly if every list kept its own |
| `PacketQueue.Pktq.Deq` | ath6kl/dhdutil/bcmutils.c:355-385 | null exactly for an empty queue; otherwise the oldest packet of the highest non-empty precedence, though `hi_prec` is only an upper bound, and nothing else changes |
| `PacketQueue.Pktq.DeqTail` | ath6kl/dhdutil/bcmutils.c:388-425 | null exactly for an empty queue; otherwise the newest packet of the lowest non-empty precedence |
| `PacketQueue.Pktq.Mdeq` | ath6kl/dhdutil/bcmutils.c:489-521 | null exactly if all precedences of the mask are empty; otherwise the oldest packet of the highest non-empty one in the mask |
| `PacketQueue.Pktq.Peek` | ath6kl/dhdutil/bcmutils.c:428-442 | the packet that a dequeue would give; the lists stay, only `hi_prec` may get lower, and stays a bound |
| `PacketQueue.Pktq.PeekTail` | ath6kl/dhdutil/bcmutils.c:445-460 | looks at the lowest non-empty precedence; the packet is its newest exactly if its tail is right |
| `PacketQueue.Pktq.Mlen` | ath6kl/dhdutil/bcmutils.c:474-486 | summing up to `hi_prec` counts every packet of every precedence in the mask, whose bits count from the lowest |
| `PacketQueue.MaskedTotalIs` | ath6kl/dhdutil/bcmutils.c:474-486 | that sum is the number of packets on the lists of the mask, the others emptied |
| `QueueRuns.Do` | ath6kl/dhdutil/bcmutils.c:156-523 | every operation of the queue, with stale tails about, takes the step that runs are made of, on lists and tail pointers |
| `QueueRuns.StepKeepsTails` | ath6kl/dhdutil/bcmutils.c:156-523 | from right tails, one operation leaves all tails right exactly if it is not a filtered flush that frees the last packet and keeps another |
| `QueueRuns.TailsStayRight` | ath6kl/dhdutil/bcmutils.c:156-523 | in a run without such a flush every tail is right at every point, so every operation may follow it |
| `QueueRuns.StaleUntilEmpty` | ath6kl/dhdutil/bcmutils.c:156-523 | a tail off its list becomes right by an operation that does not follow it exactly if the list becomes empty |
| `QueueRuns.Conservation` | ath6kl/dhdutil/bcmutils.c:156-523 | in every run in which no stale tail is followed, what was queued or entered is still queued or has left, exactly once |
| `QueueRuns.FirstInFirstOut` | ath6kl/dhdutil/bcmutils.c:156-523 | per precedence packets leave in the order they entered, in every run of appends and dequeues |
| `QueueRuns.DrainsByPriority` | ath6kl/dhdutil/bcmutils.c:355-385 | draining with `pktq_deq` delivers by falling precedence, oldest first |
| `CrcTables.Table8` | ath6kl/dhdutil/bcmutils.c:1107-1140 | every entry of the CRC-8 table is eight steps of polynomial division of its index |
| `CrcTables.Table16` | ath6kl/dhdutil/bcmutils.c:1183-1216 | the same for CRC-16 |
| `CrcTables.Table32` | ath6kl/dhdutil/bcmutils.c:1230-1295 | the same for CRC-32 |
| `Crc.TableDivides32` | ath6kl/dhdutil/bcmutils.c:1142-1144 | one table step is eight steps of polynomial division |
| `Crc.Append32` | ath6kl/dhdutil/bcmutils.c:1302-1337 | the CRC of a concatenation is the CRC of the second part continued from that of the first |
| `Crc.GoodResidue32` | ath6kl/dhdutil/bcmutils.c:1302-1337 | a message followed by its complemented CRC-32, least significant byte first, leaves one fixed residue from every initial value |
| `Crc.GoodResidue16` | ath6kl/dhdutil/bcmutils.c:1218-1228 | the same for CRC-16 |
| `Crc.GoodResidue8` | ath6kl/dhdutil/bcmutils.c:1145-1160 | the same for CRC-8 |
| `Crc.BurstDetected` | ath6kl/dhdutil/bcmutils.c:1302-1337 | every error within four consecutive bytes changes the CRC-32 |
| `Crc.HndCrc8` | ath6kl/dhdutil/bcmutils.c:1145-1160 | the table loop computes the polynomial division |
| `Crc.HndCrc16` | ath6kl/dhdutil/bcmutils.c:1218-1228 | the table loop computes the polynomial division |
| `Crc.HndCrc32` | ath6kl/dhdutil/bcmutils.c:1302-1337 | the byte loop computes the polynomial division |
| `Crc.HndCrc32Words` | ath6kl/dhdutil/bcmutils.c:1302-1337 | alignment prefix, whole words and remainder over 32-bit pointers: the division of the bytes they read, which are the input exactly if the prefix fits |
| `Crc.ReadsExactly` | ath6kl/dhdutil/bcmutils.c:1302-1337 | the number of bytes that these loops read is that of the input if and only if the alignment prefix fits, or wraps around in front of no input |
| `Crc.ReadsTooFar` | ath6kl/dhdutil/bcmutils.c:1302-1337 | where the prefix does not fit, and does not wrap around, they read four bytes too many |
| `Crc.ReadsTooFarExample` | ath6kl/dhdutil/bcmutils.c:1302-1337 | one byte at address 0x1001: five are read |
| `Crc.Crc32` | athr-hostap-wfd/wlantest/crc32.c:74-84 | the CRC of wlantest is the complement of the same division from all ones |
| `Crc.CheckValue` | athr-hostap-wfd/wlantest/crc32.c:74-84 | the CRC-32 of the digits 1 to 9 in ASCII is 0xcbf43926 |
| `Nvram.EmitIsText` | ath6kl/dhdutil/bcmutils.c:1916-1962 | the two-flag loop writes the non-empty lines without carriage returns and comments, each ended by NUL |
| `Nvram.Compact` | ath6kl/dhdutil/bcmutils.c:1916-1962 | in place: the write index never passes the read index, and the written part is that text |
| `Nvram.ProcessNvramVars` | ath6kl/dhdutil/bcmutils.c:1916-1962 | the whole buffer and the length: text, zero fill, and rounding up to a multiple of 4 where it fits |
| `Nvram.ProcessedClean` | ath6kl/dhdutil/bcmutils.c:1916-1962 | no carriage return, newline or comment is left |
| `Nvram.Idempotent` | ath6kl/dhdutil/bcmutils.c:1916-1962 | a second run on the returned prefix changes nothing |
| `Nvram.ContentOf` | ath6kl/dhdutil/bcmutils.c:1916-1962 | character by character: carriage returns (13) are dropped, and `#` (35) ends what a line contributes |
| `Nvram.TextOf` | ath6kl/dhdutil/bcmutils.c:1916-1962 | a newline (10) ends a line; its content is kept with a NUL unless it is empty, and the last line as it is |
| `Membytes.WritesTile` | ath6kl/dhdutil/dhdu.c:1054-1075 | after the writes, byte `i` of the repeated pattern is at `addr + i` modulo 2^32 for every `i` below `len`, across chunk boundaries, and no other address is touched |
| `Membytes.WritesInOrder` | ath6kl/dhdutil/dhdu.c:1054-1075 | laid end to end the chunks are the bytes exactly once and in order |
| `Membytes.WritesFit` | ath6kl/dhdutil/dhdu.c:1052-1055 | no chunk is empty, every message fits the ioctl buffer, and all but the last fill it up to less than a word |
| `Membytes.WritesAligned` | ath6kl/dhdutil/dhdu.c:1052-1055 | from an aligned address every chunk starts aligned |
| `Membytes.ParseMessage` | ath6kl/dhdutil/dhdu.c:1057-1072 | the device reads address modulo 2^32, length and data back from the message |
| `Membytes.MessageOctets` | ath6kl/dhdutil/dhdu.c:1057-1072 | each octet of a message: the name with its NUL, address and length with the lowest octet first, the data |
| `Membytes.RunSends` | ath6kl/dhdutil/dhdu.c:1072-1075 | the messages go out in order up to and with the first refused one, whose result is returned |
| `Membytes.MembytesWrite` | ath6kl/dhdutil/dhdu.c:1051-1075 | the loop over the shared buffer sends exactly those messages, and ends |
| `Membytes.DecodeInPlace` | ath6kl/dhdutil/dhdu.c:1024-1049 | decoding in place succeeds exactly on pairs of digits, and leaves the bytes they stand for in front |
| `Membytes.DigitCharacters` | ath6kl/dhdutil/dhdu.c:1024-1049 | a character stands for a digit exactly if it is that hexadecimal digit in either case |
| `Membytes.HexRoundTrip` | ath6kl/dhdutil/dhdu.c:1024-1049 | decoding what bytes look like in hexadecimal gives the bytes |
| `Ccm.OpenSeal` | athr-hostap-wfd/wlantest/ccmp.c:90-213 | CCM with M=8 and L=2 (sections 2.2 and 2.3 of RFC 3610): what is sealed opens to the message, for every block function |
| `Ccm.OpensExactlySealed` | athr-hostap-wfd/wlantest/ccmp.c:90-213 | exactly the sealed form of a message opens to it |
| `Ccm.SealsExactly` | athr-hostap-wfd/wlantest/ccmp.c:90-213 | in octets: exactly one message and authentication value goes with the states of the CBC-MAC over B_0 (flags 0x59) and the filled blocks, and with key stream blocks A_i (flags 0x01, big-endian i) |
| `Ccm.BlocksDistinct` | athr-hostap-wfd/wlantest/ccmp.c:128-170 | counter blocks are distinct and none is B_0, so key stream and MAC never share a block |
| `Ccm.Be16Exact` | athr-hostap-wfd/wlantest/ccmp.c:137-167 | the 16-bit fields hold their values exactly below 65536 |
| `CcmLoops.MacLoop` | athr-hostap-wfd/wlantest/ccmp.c:182-194 | the loop with its partial last block is the CBC-MAC of the zero-padded blocks |
| `CcmLoops.CtrLoop` | athr-hostap-wfd/wlantest/ccmp.c:143-160 | the counter loop with its partial last block is CTR mode, and writes only the message's place |
| `Ccmp.CcmpAadNonce` | athr-hostap-wfd/wlantest/ccmp.c:17-76 | the buffers filled field by field hold the AAD and the nonce whose octets `AadIs` and `NonceIs` give: frame control with masks 0x8f, 0x8f and 0xc7 by kind, addresses in order, fragment number, fourth address, QoS; priority or 0x10 for management, transmitter address and packet number |
| `Ccmp.NonceOctets` | athr-hostap-wfd/wlantest/ccmp.c:17-76 | the nonce of every header: 0x10 for management frames, the priority for QoS data, otherwise 0; then transmitter address and packet number |
| `Ccmp.AadOctets` | athr-hostap-wfd/wlantest/ccmp.c:17-76 | the AAD of every header, octet by octet |
| `Ccmp.NoncesSeparate` | athr-hostap-wfd/wlantest/ccmp.c:17-76 | two frames have the same nonce exactly if both or neither are management frames and they agree in priority, transmitter address and packet number |
| `Ccmp.TwoBlocks` | athr-hostap-wfd/wlantest/ccmp.c:120-180 | the AAD with its length always fills exactly two blocks of the MAC |
| `Ccmp.RoundTrip` | athr-hostap-wfd/wlantest/ccmp.c:90-349 | for every block function, header, packet number, key ID and payload: the emitted body opened under the emitted header gives exactly the payload, and the packet number is in it |
| `Ccmp.ProtectOctets` | athr-hostap-wfd/wlantest/ccmp.c:227-349 | the emitted frame in octets: the header with the protected bit, the CCMP header with packet number and key ID, and behind them what CCM seals under that AAD and nonce |
| `Ccmp.UnprotectOctets` | athr-hostap-wfd/wlantest/ccmp.c:90-213 | exactly the octets so sealed open to a message |
| `Ccmp.RetransmissionOpens` | athr-hostap-wfd/wlantest/ccmp.c:17-76 | a header that differs in retry, power management, more data, duration or sequence number only opens the same |
| `Ccmp.CcmpEncrypt` | athr-hostap-wfd/wlantest/ccmp.c:227-349 | null exactly for too short a frame or header; otherwise the sealed frame with the octets that `Emits` gives, within the allocation |
| `Ccmp.CcmpDecrypt` | athr-hostap-wfd/wlantest/ccmp.c:90-213 | null exactly where nothing is sealed behind the header; otherwise the plaintext whose sealing in octets the body is, and its length |
| `Rc4.Involution` | athr-hostap-wfd/wlantest/wep.c:16-42 | RC4 is its own inverse for every key and message |
| `Rc4.Rc4States` | athr-hostap-wfd/wlantest/wep.c:16-42 | RC4 by its states: 256 exchanges of place i and the running sum of state and key octets modulo 256, then one exchange for each octet, which is XORed with the element at the sum of the two exchanged |
| `Rc4.WepCrypt` | athr-hostap-wfd/wlantest/wep.c:16-42 | in place, with S a permutation at every step: the first part of the buffer goes through those states, the rest stays |
| `Wep.ExpansionCycles` | athr-hostap-wfd/wlantest/wep.c:45-55 | cycling through the 16-byte expansion is cycling through the key exactly for key lengths that divide 16 |
| `Wep.ExpandedIsTextbook` | athr-hostap-wfd/wlantest/wep.c:45-55 | for those lengths the key stream is that of textbook RC4 under the key |
| `Wep.TryWep` | athr-hostap-wfd/wlantest/wep.c:45-67 | the buffer becomes the RC4 of the data under the key, through the states of RC4; found exactly if the integrity value matches |
| `Wep.SoundExactlySealed` | athr-hostap-wfd/wlantest/wep.c:45-67 | the integrity value matches exactly on what was sealed with the key |
| `Wep.OpensExactlySealed` | athr-hostap-wfd/wlantest/wep.c:70-103 | a message comes out exactly if the frame is its sealing under a configured key and under none before it |
| `Wep.OpensStates` | athr-hostap-wfd/wlantest/wep.c:45-103 | what comes out is what the states of RC4 under the IV and the first fitting key make of the body, up to its integrity value |
| `Wep.IcvValue` | athr-hostap-wfd/wlantest/wep.c:16-67 | the integrity value of the digits 1 to 9 is their CRC-32, lowest octet first |
| `Wep.WepDecrypt` | athr-hostap-wfd/wlantest/wep.c:70-103 | the loop over the keys returns what the first fitting key gives |
| `TkipMixing.RippleInjective` | athr-hostap-wfd/wlantest/tkip.c:107-155 | a chain of word updates, each by a function of the neighbour, loses nothing, whatever the S-box |
| `TkipMixing.RippleUnripple` | athr-hostap-wfd/wlantest/tkip.c:136-155 | it reaches every value as well: phase 2 step 2 is a bijection on the words |
| `TkipMixing.Phase1Injective` | athr-hostap-wfd/wlantest/tkip.c:107-126 | for one key distinct (IV32, TA) pairs give distinct TTAKs |
| `TkipMixing.PacketKeysDistinct` | athr-hostap-wfd/wlantest/tkip.c:107-169 | for one key no two distinct (TA, IV32, IV16) triples give the same RC4 key |
| `TkipMixing.Phase1Recurrence` | athr-hostap-wfd/wlantest/tkip.c:107-126 | phase 1 as 45 words: each is the one five before it, plus the S-box of the word before XOR two octets of the key, plus the round number for the fifth word of a round; the last five are the result |
| `TkipMixing.Phase2Recurrence` | athr-hostap-wfd/wlantest/tkip.c:129-169 | phase 2 as 18 words: six steps with the S-box, two rotations with the key, four without; the 16 octets of the seed from the last six |
| `TkipMixing.TkipMixingPhase1` | athr-hostap-wfd/wlantest/tkip.c:107-126 | the eight rounds in place compute the chain, and the words of that recurrence |
| `TkipMixing.TkipMixingPhase2` | athr-hostap-wfd/wlantest/tkip.c:129-169 | the three steps in place compute the chain and the seed, by the words of that recurrence |
| `Michael.BlockBijective` | athr-hostap-wfd/wlantest/tkip.c:190-200 | `michael_block` is a bijection on (l, r), with its inverse |
| `Michael.OneBlockDetected` | athr-hostap-wfd/wlantest/tkip.c:203-252 | two messages of equal length that differ within one 32-bit block, the padded last one included, never have the same MIC under one key and header |
| `Michael.MicStates` | athr-hostap-wfd/wlantest/tkip.c:190-252 | Michael by its states: the key, one step of rotations, swaps and sums for each little-endian word of pseudo header and message with 0x5a and zeros behind, and the code of the last |
| `Michael.BlockValues` | athr-hostap-wfd/wlantest/tkip.c:190-200 | three known values of the block function |
| `Michael.MichaelMic` | athr-hostap-wfd/wlantest/tkip.c:203-252 | header loop, block loop and last block compute Michael of the padded message, through those states |
| `Tkip.MichaelMicHdr` | athr-hostap-wfd/wlantest/tkip.c:255-288 | destination and source by the DS bits, and the priority |
| `Tkip.SealedOpens` | athr-hostap-wfd/wlantest/tkip.c:291-362 | what the encapsulation of the standard makes is opened |
| `Tkip.OpensExactlySealed` | athr-hostap-wfd/wlantest/tkip.c:291-362 | nothing else is: a message comes out exactly if the body is its sealing under the mixed key |
| `Tkip.OpensCarried` | athr-hostap-wfd/wlantest/tkip.c:255-362 | what opens carries the message in octets: the mixed seed of the address and IV octets, the states of RC4 under it, and the code of Michael under the key and pseudo header that the DS bits choose |
| `Tkip.TkipDecrypt` | athr-hostap-wfd/wlantest/tkip.c:291-362 | the function computes that opening, and what comes out is carried so |
| `Bip.ProtectedPasses` | athr-hostap-wfd/wlantest/inject.c:81-141 | for every frame of at least 24 octets the frame built with a key passes `check_mmie_mic` with it |
| `Bip.PassesOnlyProtected` | athr-hostap-wfd/wlantest/rx_mgmt.c:751-786 | the only MIC that passes behind given octets is the one the sender computes |
| `Bip.MicOctets` | athr-hostap-wfd/wlantest/rx_mgmt.c:751-786 | the MIC that passes is over these octets: frame control masked with 0xc7, the addresses, the body, and eight zeros for the MIC |
| `Bip.ProtectOctets` | athr-hostap-wfd/wlantest/inject.c:81-141 | the protected frame: the frame, element 76 of length 16, key ID, packet number, and that MIC |
| `Bip.ProtectedFields` | athr-hostap-wfd/wlantest/rx_mgmt.c:789-871 | the receiver reads back the element, the key ID and the packet number that were put in |
| `Bip.CheckMmieMic` | athr-hostap-wfd/wlantest/rx_mgmt.c:751-786 | accepts exactly if the frame ends in the first eight octets of the code of those octets |
| `Bip.BuildProtected` | athr-hostap-wfd/wlantest/inject.c:81-141 | the stored packet number is counted up in place, and the frame is the protected one with the new number |
| `Injection.InjectedAccepted` | athr-hostap-wfd/wlantest/inject.c:81-141 | an injected frame passes the check of its BSS; it is counted valid exactly if the key ID is 4 or 5, and otherwise counted invalid |
| `Injection.InjectedOctets` | athr-hostap-wfd/wlantest/inject.c:81-141 | the injected frame: MMIE with the key ID in use and the packet number counted up by one, and the MIC under the IGTK, or under sixteen octets of 0x11 where it shall be a bad one |
| `Injection.BadlyInjected` | athr-hostap-wfd/wlantest/inject.c:81-141 | a bad one for key ID 4 or 5 is judged invalid and counted so exactly unless the codes under both keys agree in their first eight octets |
| `Injection.InjectedLater` | athr-hostap-wfd/wlantest/inject.c:81-141 | its packet number is later than the last one exactly as long as that does not roll over |
| `Counters.IncAddsOne` | athr-hostap-wfd/src/utils/common.c:147-165 | rippling through the octets adds one, modulo 256 to the length |
| `Counters.IncByteArray` | athr-hostap-wfd/src/utils/common.c:147-165 | the loop in place computes it |
| `Counters.BeforeIsLess` | athr-hostap-wfd/wlantest/rx_mgmt.c:789-871 | comparing octets from the left is comparing the numbers |
| `Sqn.IncSqn` | athr-hostap-wfd/hostapd/hlr_auc_gw.c:545-564 | the six octets in place become the next sequence number, by the shifts, mask and OR of the code |
| `Sqn.Fields` | athr-hostap-wfd/hostapd/hlr_auc_gw.c:545-564 | those operations on 64-bit numbers are the arithmetic on SEQ and IND |
| `Bits.MaskIsRemainder` | athr-hostap-wfd/hostapd/hlr_auc_gw.c:557-560 | AND with n ones is the remainder by 2^n |
| `Bits.OrIsPlus` | athr-hostap-wfd/hostapd/hlr_auc_gw.c:557-560 | OR of a number shifted left by n and one below 2^n is their sum |
| `Sqn.NextValue` | athr-hostap-wfd/hostapd/hlr_auc_gw.c:545-564 | through the big-endian encoding SEQ is counted up modulo its 48 - `ind_len` bits and IND modulo its own (3GPP TS 33.102, annex C.3.2) |
| `Sqn.IncreasesExactly` | athr-hostap-wfd/hostapd/hlr_auc_gw.c:545-564 | the number gets larger exactly if SEQ does not overflow |
| `Sqn.AfterCalls` | athr-hostap-wfd/hostapd/hlr_auc_gw.c:545-564 | k calls add k to SEQ and k to IND modulo 2^`ind_len` |
| `Sqn.AlwaysIncreasing` | athr-hostap-wfd/hostapd/hlr_auc_gw.c:545-564 | every number issued is larger than all before it |
| `Learned.ScannedValid` | athr-hostap-wfd/wpa_supplicant/bgscan_learn.c:471-538 | a scan keeps BSSIDs unique and neighbour lists free of repeats and of the BSS itself |
| `Learned.ScannedRel` | athr-hostap-wfd/wpa_supplicant/bgscan_learn.c:471-538 | a scan adds exactly the pairs of a scanned BSS and another one that fits the array |
| `Learned.ScannedFreq` | athr-hostap-wfd/wpa_supplicant/bgscan_learn.c:471-538 | after a scan each scanned BSS is listed with the frequency seen last, and every other as before |
| `Learned.ScannedBehind` | athr-hostap-wfd/wpa_supplicant/bgscan_learn.c:68-98 | a scan puts new BSSes in front of those known, whose order stays, and new neighbours behind those known |
| `Learned.ScanSymmetric` | athr-hostap-wfd/wpa_supplicant/bgscan_learn.c:471-538 | one scan keeps the neighbour relation symmetric exactly if every BSS that did not fit was a neighbour of all that did |
| `Learned.LargeScanAsymmetric` | athr-hostap-wfd/wpa_supplicant/bgscan_learn.c:471-538 | any scan of more than 50 different BSSes makes an empty database asymmetric |
| `Learned.FiftyOneExample` | athr-hostap-wfd/wpa_supplicant/bgscan_learn.c:471-538 | a scan of 51 BSSes that does |
| `Learned.ScansKeep` | athr-hostap-wfd/wpa_supplicant/bgscan_learn.c:471-538 | after every run of scans from empty the database is valid, and symmetric if no scan had more than 50 |
| `Learned.LoadSaved` | athr-hostap-wfd/wpa_supplicant/bgscan_learn.c:101-192 | loading what was saved gives the same entries with the list turned round |
| `Learned.LoadSavedLookup` | athr-hostap-wfd/wpa_supplicant/bgscan_learn.c:101-192 | as a map from BSSID to frequency and ordered neighbour list nothing changes |
| `Bgscan.LearnBss.Add` | athr-hostap-wfd/wpa_supplicant/bgscan_learn.c:68-85 | a neighbour is appended unless it is the BSS itself or there already |
| `Bgscan.LearnData.NotifyScan` | athr-hostap-wfd/wpa_supplicant/bgscan_learn.c:471-538 | on objects, a scan result has exactly the effect that it has on values |
| `Bgscan.LearnData.Save` | athr-hostap-wfd/wpa_supplicant/bgscan_learn.c:161-192 | the lines written are those of the database |
| `Bgscan.LearnData.Load` | athr-hostap-wfd/wpa_supplicant/bgscan_learn.c:101-158 | the objects built from the lines stand for the loaded database |
| `Bgscan.InFreqs` | athr-hostap-wfd/wpa_supplicant/bgscan_learn.c:195-208 | found exactly if listed before the first 0 |
| `Bgscan.GetFreqs` | athr-hostap-wfd/wpa_supplicant/bgscan_learn.c:211-232 | up to the first record with frequency 0 each frequency exactly once; what follows is appended unless listed before, every zero again, and no reader sees it |
| `Bgscan.SearchEnds` | athr-hostap-wfd/wpa_supplicant/bgscan_learn.c:235-265 | the probe search ends exactly if it does not start from index 0 or some supported frequency is unlisted |
| `Bgscan.GetProbeFreq` | athr-hostap-wfd/wpa_supplicant/bgscan_learn.c:235-265 | where it ends, the next unlisted frequency going round is appended and remembered; if none is, all but the start are listed |
| `Records.GetAt` | athr-hostap-wfd/wlantest/sta.c:18-53 | looking up with creation adds at most one fresh station, for proper addresses only, and changes no other record |
| `Records.GetBssAt` | athr-hostap-wfd/wlantest/bss.c:19-54 | the same for a BSS |
| `Handshake.ClassifyOctets` | athr-hostap-wfd/wlantest/rx_eapol.c:808-998 | which octets are which message: key type, install and ACK in octet 6, MIC and secure in octet 5, and the key data length tell the six messages apart, exactly behind the tests of type, length, version, error, request and SMK |
| `Handshake.FirstExplains` | athr-hostap-wfd/wlantest/rx_eapol.c:93-158 | `derive_ptk` installs a PTK exactly if the KCK from some known PMK verifies the frame, and then that of the first |
| `Handshake.PtkChanges` | athr-hostap-wfd/wlantest/rx_eapol.c:93-641 | a message changes the PTK in use only by a first installation in messages 2 and 3, or by message 4 putting to use the pending key that verifies it; packet numbers restart at zero with it |
| `Handshake.KeysKept` | athr-hostap-wfd/wlantest/rx_eapol.c:93-641 | a PTK in use is never dropped, and a pending one exists only beside it |
| `Handshake.RekeysExactly` | athr-hostap-wfd/wlantest/rx_eapol.c:591-641 | message 4 puts the pending key to use exactly if that key verifies it |
| `TrackerRuns.PtkSteps` | athr-hostap-wfd/wlantest/rx_eapol.c:93-641 | whatever arrives, keys of a station change by messages of its own handshake only, in those ways; no PTK in use is dropped short of a flush (section 8.5.3 of IEEE Std 802.11-2007) |
| `TrackerRuns.PmksAdded` | athr-hostap-wfd/wlantest/ctrl.c:776-852 | only PMKs that configuration, a passphrase or a beacon of the BSS brought are ever tried |
| `StaEvents.StepSta` | athr-hostap-wfd/wlantest/rx_mgmt.c:105-1087 | every event does to each station record exactly what the octets of the frame say: which frames authenticate, associate, request and release, which are judged valid, which message changes which key and nonce, and whose packet number is noted |
| `BssEvents.StepBss` | athr-hostap-wfd/wlantest/rx_mgmt.c:789-871 | the same for each BSS record: protection and PMKs from beacons, the counters and packet numbers of BIP frames, and integrity group keys from messages that a held key confirms |
| `BssEvents.StepPmks` | athr-hostap-wfd/wlantest/ctrl.c:776-852 | the PMKs for every BSS grow by configuration only |
| `LinkEvents.StepLink` | athr-hostap-wfd/wlantest/rx_tdls.c:20-556 | the same for each direct link of a well-formed tracker: setup frames, with keys and code in octets, teardowns, and leaving frames of either end |
| `TrackerRuns.RunKeys` | athr-hostap-wfd/wlantest/rx_eapol.c:93-641 | after every run each PTK held verified the MIC of a message of the station's own handshake and comes from a PMK that the tracker knew at that message and the nonces last seen in that handshake; a pending key is held only beside one in use |
| `TrackerRuns.RunNonces` | athr-hostap-wfd/wlantest/rx_eapol.c:62-641 | after every run a station's record holds the nonces last carried by messages 1 or 3, and by message 2, of its own handshake since the last flush |
| `FourWay.FourMessages` | athr-hostap-wfd/wlantest/rx_eapol.c:62-641 | after any run, the four messages of a 4-Way Handshake (key information 0x008a, 0x010a, 0x13ca, 0x030a) with the right codes put the PTK of their nonces to use with packet numbers of zero, for a first handshake as for a rekeying |
| `FourWay.ThreeMessages` | athr-hostap-wfd/wlantest/rx_eapol.c:62-641 | before the fourth, in a rekeying the new PTK is pending and the old one in use |
| `FourWay.FourBringIgtk` | athr-hostap-wfd/wlantest/rx_eapol.c:348-641 | and the IGTK of message 3 is held, its packet number turned round |
| `FourWay.HandshakeCompletes` | athr-hostap-wfd/wlantest/rx_eapol.c:62-641 | from nothing: association, one PMK and those four messages, after which PTK and IGTK are held |
| `IgtkRuns.RunIgtks` | athr-hostap-wfd/wlantest/rx_eapol.c:348-764 | after every run each IGTK held was carried by a message 3 or group message 1 of some station of the BSS, whose MIC verified under the PTK that the station had then, and that PTK is justified as above |
| `TrackerTables.StepValid` | athr-hostap-wfd/wlantest/rx_tdls.c:20-63 | every event keeps BSSIDs, station addresses and ordered link pairs unique, group addresses out, and links between listed stations |
| `TrackerTables.RunValid` | athr-hostap-wfd/wlantest/rx_tdls.c:20-63 | so they are after every run |
| `TrackerTables.RunProtected` | athr-hostap-wfd/wlantest/rx_mgmt.c:181-599 | after every run: a frame for one receiver that takes an associated station with management frame protection out of state 3 was protected and opened under that station's PTK, if the station checked is the one acted on |
| `TrackerTables.RunReverseGone` | athr-hostap-wfd/wlantest/rx_tdls.c:361-431 | after every run a successful Setup Confirm leaves the link up, and the reverse entry is gone exactly if there was none or the fast-transition element is absent or complete |
| `TrackerTables.RunSelfConfirm` | athr-hostap-wfd/wlantest/rx_tdls.c:361-431 | after every run a successful Setup Confirm of a station with itself leaves the entry listed exactly if the fast-transition element is cut short |
| `StateRuns.StateSteps` | athr-hostap-wfd/wlantest/rx_mgmt.c:105-599 | a flush aside, whatever arrives changes the state of a station by a successful authentication, an accepting response or a valid leaving frame for it only, each told by the octets of the frame, and only the last lowers it |
| `StateRuns.RunAssociated` | athr-hostap-wfd/wlantest/rx_mgmt.c:105-599 | after every run a station is in state 3 exactly if a response with status 0 accepted it and since then no leaving frame for it was judged valid and nothing was flushed, all told by octets |
| `StateRuns.RunGroupLeaving` | athr-hostap-wfd/wlantest/rx_mgmt.c:789-871 | after every run a group-addressed leaving frame lowers each station it is for exactly if it has an MMIE whose MIC verifies, whose key ID is not 4 or 5 or whose IGTK is unknown, or has none and the BSS no management frame protection |
| `MgmtFrames.InvalidLeaves` | athr-hostap-wfd/wlantest/rx_mgmt.c:181-599 | a deauthentication or disassociation judged invalid leaves every station state and every direct link as it was |
| `MgmtFrames.ProtectedLeaving` | athr-hostap-wfd/wlantest/rx_mgmt.c:874-1087 | the step behind `RunProtected`, for every state of the records |
| `MgmtFrames.LeaveAt` | athr-hostap-wfd/wlantest/rx_mgmt.c:181-248 | a valid frame of full length lowers the station it names, or each of the BSS if it is a broadcast, and no other |
| `MgmtFrames.PrecheckKeeps` | athr-hostap-wfd/wlantest/rx_mgmt.c:751-1065 | the checks change no association state, no security parameters, no link, and not the frame's header |
| `MgmtFrames.UndisturbedExactly` | athr-hostap-wfd/wlantest/rx_mgmt.c:954-990 | unprotected leaving frames leave protected, associated stations alone in every state of the records exactly if the station checked is the one acted on |
| `LeavingRuns.Comes` | athr-hostap-wfd/wlantest/rx_mgmt.c:251-376 | an association request with management frame protection and its response lead to the exposed state |
| `LeavingRuns.NeverDisturbsExactly` | athr-hostap-wfd/wlantest/rx_mgmt.c:954-1087 | the same over all runs: exactly if the access point is receiver or sender, or both are one |
| `LeavingRuns.OpenedLowers` | athr-hostap-wfd/wlantest/rx_mgmt.c:874-951 | a protected frame that opens under the key of the station checked lowers the station acted on, whichever that is |
| `LeavingRuns.OpenedOnlyExactly` | athr-hostap-wfd/wlantest/rx_mgmt.c:874-951 | after every run such a frame changes the state of no other station exactly if the station acted on is the same, is not listed, or is in no state that it lowers |
| `LeavingRuns.Joins` | athr-hostap-wfd/wlantest/rx_mgmt.c:251-376 | after any run, request and response add the record of a new station in state 3, and change no other record and no PMK |
| `Reached.OneKeyed` | athr-hostap-wfd/wlantest/rx_eapol.c:93-345 | two associations, a PMK and a message 2 with the right MIC give one station its PTK and leave the other as it was |
| `Reached.OpenedLowersOther` | athr-hostap-wfd/wlantest/rx_mgmt.c:874-951 | after that run a frame between the two that opens under the receiver's PTK takes the sender, under management frame protection, from state 3 to state 1 |
| `Reached.UnjudgedReleases` | athr-hostap-wfd/wlantest/rx_mgmt.c:835-848 | in a BSS and for a station with management frame protection, a broadcast with an MMIE of key ID 0 and a MIC of zeros takes the station from state 3 to state 1 |
| `Reached.ReverseStays` | athr-hostap-wfd/wlantest/rx_tdls.c:361-431 | two associations, a Setup Request from r to i and a Setup Confirm from i to r with an element shorter than 82 octets: both entries are listed |
| `Reached.SelfGoes` | athr-hostap-wfd/wlantest/rx_tdls.c:361-431 | a station's request to itself lists its link, and its confirm without the element takes it away |
| `TdlsTable.TpkSymmetric` | athr-hostap-wfd/wlantest/rx_tdls.c:66-125 | both ends derive the same keys: roles and nonces may be exchanged |
| `TdlsTable.TpkByNumber` | athr-hostap-wfd/wlantest/rx_tdls.c:66-125 | the keys are those of the nonces, the smaller number first, and of the addresses, the smaller number first, with the BSSID behind |
| `TdlsTable.ReverseGone` | athr-hostap-wfd/wlantest/rx_tdls.c:361-431 | the step behind `RunReverseGone` |
| `TdlsTable.SelfConfirm` | athr-hostap-wfd/wlantest/rx_tdls.c:361-431 | a link of a station with itself survives its Setup Confirm exactly if the element is there and cut short |
| `Stations.Sta.TryPmk` | athr-hostap-wfd/wlantest/rx_eapol.c:93-135 | the PTK is installed in place exactly if its KCK verifies the frame: pending while one is in use, else in use with packet numbers zeroed |
| `Stations.Sta.Derive` | athr-hostap-wfd/wlantest/rx_eapol.c:138-158 | the two loops try the PMKs of the BSS and then the global ones, and stop at the first that fits |
| `Stations.Sta.RxMessage` | athr-hostap-wfd/wlantest/rx_eapol.c:62-764 | each handler updates its station record exactly as the step on values, and says whether the group keys are to be looked at |
| `BssRecords.Bss.StaGet` | athr-hostap-wfd/wlantest/sta.c:18-53 | the station found, or a fresh one in front of the list; null exactly for group addresses; no address twice |
| `BssRecords.Bss.RxLeave` | athr-hostap-wfd/wlantest/rx_mgmt.c:153-248 | on objects: the station and its links, or all stations for a broadcast, exactly as on values |
| `BssRecords.Bss.CheckMmie` | athr-hostap-wfd/wlantest/rx_mgmt.c:789-871 | counters and packet number updated in place, and the verdict, exactly as on values |
| `BssRecords.Bss.InjectBip` | athr-hostap-wfd/wlantest/inject.c:81-141 | the packet number of the key in use counted up in place, and the frame |
| `BssRecords.Bss.OnLink` | athr-hostap-wfd/wlantest/rx_tdls.c:192-556 | setup and teardown frames between found stations insert, update and remove link records exactly as on values |
| `Tracker.Wlantest.BssGet` | athr-hostap-wfd/wlantest/bss.c:19-54 | the BSS found, or a fresh one in front of the list; null exactly for group addresses |
| `Tracker.Wlantest.MgmtCcmpDecrypt` | athr-hostap-wfd/wlantest/rx_mgmt.c:874-951 | the frame opened under the PTK of the station checked, its packet number noted in place only then |
| `Tracker.Wlantest.RxMgmt` | athr-hostap-wfd/wlantest/rx_mgmt.c:993-1087 | checks and dispatch on objects are those on values |
| `Tracker.Wlantest.RxEapol` | athr-hostap-wfd/wlantest/rx_eapol.c:808-998 | a message finds or adds its records, and changes that station, and the group keys of that BSS if its MIC is right, as on values |
| `Tracker.Wlantest.RxTdls` | athr-hostap-wfd/wlantest/rx_tdls.c:20-63 | the lookups of `get_tdls` and the handlers on objects are those on values |
| `Tracker.Wlantest.Receive` | athr-hostap-wfd/wlantest/rx_mgmt.c:993-1087 | every event changes the linked objects exactly as the step of runs says, keeps the records apart and well-formed, so all run theorems hold of them |

## Left out

- AES, CMAC, SHA-256, the pairwise and TPK key derivations, PBKDF2, AES key unwrapping and the EAPOL-Key MIC are parameters: arbitrary functions.
- The contents of the TKIP S-box: the proofs hold for every function on 16 bits. The mixing methods take it as a parameter.
- Parsing of information elements, key data and radiotap headers: parsed elements are inputs.
- Sockets, ioctls, pcap files, timers, printing, hexdumps, and files as operating-system objects; the database file is a sequence of lines and the formatting of a line is not modelled.
- Memory-allocation failure.
- Replay: packet numbers are noted but replays are only logged by the code, so packet numbers are not claimed to increase.
- GTKs, the PTKs of peer keys, WEP key configuration, and the counters of frames other than those of BIP.
- The packet numbers of direct links, and the decryption of data frames by cipher: a data frame that decrypts is an event with its packet number.
- Configuration: passphrases are modelled by the PMKs they give; deriving them and the test for a known passphrase are not part of this model.
- `wlantest_inject` and `wlantest_inject_prot`: the choice of the protection and the building of the other frames.
- Channel-switch, SA Query and other action frames, and the frame acknowledgements that only count.
- `tkip_encrypt` is a stub in the code.
- `DHD_IOCTL_MAXLEN` is defined outside the repository; it is a parameter that leaves room for the header and one word.
- The reading half of `dhd_membytes`, which prints device memory, and `dhd_load_file_bytes`, which writes a file to it block by block.
- `pktcopy` and `pktfrombuf`, which copy between a chain of packets and a buffer.
- `bcm_inc_bytes` and `bcm_cmp_bytes`, which add to and compare byte strings as `Counters` does for those of wlantest; `bcm_qdbm_to_mw`, which scales an entry of a table; `get_gsm_triplet`, which goes round the triplets of an IMSI.
- What a device does with a write that runs past the last address: it is taken to go on at address 0 (`Membytes.WritesTile`).
- Enqueueing behind a stale tail that points to a packet on another list, which would corrupt that list, is not followed further; `QueueRuns` admits appends only where the tail is right.
- `config_file.c`, `ctrl_iface.c`, `main.c`, the command-line clients and the module loaders.
