# BubbleStorm, verified in part

A Dafny 4.11 model of the parts of BubbleStorm and its testbed whose correctness is least
obvious, with proofs of what they compute or keep. Each part is modelled in the form its code
has: methods that update objects and arrays where the code does, functions where it only
computes. `dafny verify dfyconfig.toml` checks everything.

## What is here

**Placing node groups on hosts** (`NodePlacement.py`). Groups are joined by contracts: groups
that exclude each other must not share a host, and bound groups should. `MaximalSets` is the
theory of sets closed under one symmetric relation and free of pairs of another; it knows
nothing about how they are enumerated. `Groups` and `Containers` hold the code's objects, its
depth-first searches and its incremental enumeration, and prove that each connected component
ends with exactly the maximal compatible unions of bound classes. `Patterns` turns these
containers into numbered host patterns. `Bookings` has the hosts and bookings that are updated
in place; `Ledger` states on plain values what every booking step keeps (no member lost or
booked twice, what a host has free plus what its bookings use is what it had); `Steps` ties the
objects to these values; `Dealing` deals the members of groups out to bookings; `Placement` and
`Spreading` put bookings on hosts, splitting and retrying, take everything back on failure, and
later spread bookings over unused hosts; they say exactly when that fails, and when nothing more
can be spread. `NodePlacement` puts all of it together: from groups, contracts and hosts to a
placement that keeps the exclusions and the limits of each group. `BoundGroups` says when bound
groups really share their hosts, and `BoundExample` runs one case in which they do not.

**Poly1305 in double precision** (`poly1305_53.c`). `Doubles` models IEEE binary64 as reals
with rounding to nearest, so that every addition in the code rounds and each exactness is a
proof obligation. `Poly1305Spec` is section 2.5 of RFC 8439. `Poly1305Limbs` has the limb
arithmetic on integers; `Poly1305` follows the code, from the bit patterns of doubles to the
bytes of the tag, and proves that it returns the tag of the RFC for every message and every
clamped key. `Poly1305Clamp` proves that the clamp is the RFC's 128-bit mask, `Poly1305Example`
that the tag is the one of the RFC's example.

**AES-128 by tables** (`aes_big.c`). `AesTable` has the code's 1024 table words and proves that
they are made from the S-box as FIPS 197 defines it, inverse and affine map included; `Aes`
proves that the interleaved rounds and key schedule compute the cipher of FIPS 197, and
`AesExample` that this cipher gives the example of its Appendix B.

**Curve25519** (`curve25519-wes.c`). `Field25519` has the polynomial identities modulo
2^255 - 19, `Residues` powers and roots; `Curve25519` has the code's operations on limb arrays:
addition of points, the branch-free square root, expansion of a point from its x, and the
recovery of y.

**CRC-32** (`crc32.c`). `Crc32Table` checks the literal table against its generator; `Crc32`
proves that the word loop computes a polynomial remainder; `Crc32Theory` proves that this is
the remainder of division by x^32 + 0x04c11db7; `Crc32Errors` that any difference within 32
consecutive bits is detected; `Crc32Facts` says what the result is without the definition.

**Merging node databases** (`Database.py`, `DatabaseProcessing.py`, `PostProcessing.py`).
`Renaming` proves that the sequence of single id renames is the simultaneous renaming; `Dumps`
what the same loop does to dumps and statistics when it is called for dumps; `Database` has the
loops on the tables; `Matching` proves that global ids identify statistics; `Merging` that
merged measurements are totals in whatever order; `PostProcessing` all of it for a list of
databases.

**ICMP errors** (`icmp-packet.c`). `OnesComplement` is the checksum of RFC 1071 and the way the
code computes it; `IcmpSpec` has the headers as bytes and what a receiver reads in them;
`IcmpPacket` writes, repairs and checks them in one buffer.

**Streams** (`bindings/cpp/cusp/util`). `SingleCycle` has the client and server callbacks of a
request over two one-way streams, and every interleaving of them; `BufferedOutStream` a buffer
in front of a stream that takes one write at a time.

## How the code is read

- Where the code takes an element of a set, sorts a list by a rating, or picks at random, the
  model takes any element; what is proved holds for every choice.
- RAM, disc and rating values are integers. The quotients that the placement computes in
  floating point and rounds up are exact quotients.
- A Python exception that aborts an operation is a result `ok` that is false.
- No group has both a self-exclusion and a self-bound contract (`Consistent`): its least number
  of members per host would exceed its greatest.
- Limbs of the curve code may be negative or large, as its assembler routines accept them; the
  routines themselves are known by their results modulo 2^255 - 19.
- A `hide` statement at the head of a proof names the definitions it does not need.

## Findings

- `NodePlacement.py:697-699`: after the bookings of a pattern are generated nothing is left
  over, so the loop that would top them up, and that calls a method that does not exist, is
  never entered (`BookingGen`).
- `NodePlacement.py:681-696`: bound groups share their hosts if and only if their members can be
  dealt out evenly (`BoundShareHosts`): with n bookings, of a group with minimum m and share
  t = max(m, ceil(size/n)), (n - 1) t + m <= size. They could share them more often: of four
  members of a and three of b, with one b per host, a is dealt out as 2, 2 and 0, and the
  placement succeeds with a host that has members of only one of them (`BoundExample.Run`), though
  2, 1 and 1 would put some of a beside every b. No placement can do so if a has fewer members
  than b's hosts need (`BoundButApart`).
- `curve25519-wes.c:71` and `:158`: 0, which the header calls success, is returned also for
  numbers that have no root and for an x that no point has (`FalseSuccess`); the value is a
  root exactly when there is one (`RootIfSquare`).
- `curve25519-wes.c:134`: y is wrong exactly when the result is the mirror image of the argument
  (`CurvePower`); the base point is an example (`WrongMirror`).
- `Database.py:473-489`: the loop is right for one-to-one maps; for other maps no run gets through
  without violating a primary key (`RunIsRenaming`), and some need not end: those in which an id
  outside a cycle leads into it (`EndlessIff`). `EndlessRun` shows one that violates no key.
- `Database.py:488`: the branch that handles an entry renames statistics also when it is called
  for dumps. The dumps are renamed as asked exactly when nothing was asked
  (`DumpsRenamedIffIdentity`); the statistics survive every run exactly when none of their ids
  is one that a dump is to leave or one of the fresh ids, of which there are as many as the map
  has cycles (`StatisticsSurviveIff`). So the global ids given at `DatabaseProcessing.py:66` can
  be lost at line 78 (`GlobalIdLost`, `GlobalIdsSurviveIff`).
- `icmp-packet.c:239`: a packet of 2^16 bytes or more is written without its true length, and is
  the only kind of packet with a known code that is not read back (`SendAndReceive`).
- `icmp-packet.c:95-103`, `:127-135` and `:143-150`: a checksum of all ones where zero would do is
  valid by RFC 1071 and is rejected, in the outer header, the ICMP message and the inner header.
  `SoundIff` has the exact condition; `OnesRejected` and `OnesExample` have packets that differ in
  this field only from ones that the program sends and accepts.

## Model

| member | source | states |
|---|---|---|
| `Groups.Contract.constructor` | `testbed/src/testbed/master/NodePlacement.py:128-139` | both groups know the contract; a self-exclusion limits the group to one member per host, a self-bound contract asks for two; contracts made so far stay known at both ends and their limits in force |
| `Groups.Group.GetBound` | `testbed/src/testbed/master/NodePlacement.py:194-199` | the depth-first search adds the group, everything its new members are bound to, and nothing outside a closed set that holds the group |
| `Groups.Group.GetGroupsWithContract` | `testbed/src/testbed/master/NodePlacement.py:201-205` | the same along contracts of either kind |
| `Containers.Container.Split` | `testbed/src/testbed/master/NodePlacement.py:459-467` | the copy keeps exactly what is not bound to the conflicting groups |
| `Containers.Container.CheckAcceptance` | `testbed/src/testbed/master/NodePlacement.py:472-483` | the conflict is exactly the members an exclusion contract matches |
| `Containers.CheckGroupsConflict` | `testbed/src/testbed/master/NodePlacement.py:577-587` | a bound class passes exactly when no two distinct members exclude each other |
| `Containers.Process` | `testbed/src/testbed/master/NodePlacement.py:552-575` | after a class is taken, the containers are exactly the successors of the old ones: the class joins, or the container stays and a copy has the class in place of what conflicts |
| `MaximalSets.StepKeepsAll` | `testbed/src/testbed/master/NodePlacement.py:552-575` | one such step keeps "only compatible sets, and every maximal one" when the class is added to the universe |
| `MaximalSets.MaximalComesFrom` | `testbed/src/testbed/master/NodePlacement.py:552-575` | every maximal set of the larger universe is reached from a maximal set of the smaller one |
| `MaximalSets.SuccessorCompatible` | `testbed/src/testbed/master/NodePlacement.py:567-572` | what a step makes of a compatible set is compatible |
| `MaximalSets.FilterKeepsMaximal` | `testbed/src/testbed/master/NodePlacement.py:537-547` | the containers that lie inside another are exactly the ones that are not maximal |
| `Containers.EnumerateClasses` | `testbed/src/testbed/master/NodePlacement.py:533-535` | the loop over all bound classes of a component yields only compatible sets and every maximal one |
| `Containers.FinalContainers` | `testbed/src/testbed/master/NodePlacement.py:537-547` | a container is dropped exactly when a different one contains it |
| `Containers.ProcessComponent` | `testbed/src/testbed/master/NodePlacement.py:515-549` | it fails exactly on a class with an inner exclusion; otherwise the result is exactly all maximal compatible unions of bound classes, and they cover the component |
| `Containers.ProcessGroups` | `testbed/src/testbed/master/NodePlacement.py:503-549` | components partition the groups; it fails exactly when some group is bound to one it excludes; otherwise each component has exactly its maximal sets |
| `Containers.Splitted` | `testbed/src/testbed/master/NodePlacement.py:438-447` | a container falls into disjoint bound classes that make it up |
| `Patterns.BuildPatterns` | `testbed/src/testbed/master/NodePlacement.py:857-879` | the numbered pattern lists: per number one container, disjoint patterns free of exclusions; numbers of different components differ; every group is in some pattern; no contract crosses components |
| `Bookings.Host.AcceptBooking` | `testbed/src/testbed/master/NodePlacement.py:267-283` | accepts exactly when the host runs every group of the booking and the disc, the RAM and the places that all its members need together are not more than what is left of each |
| `Bookings.UseTotals` | `testbed/src/testbed/master/NodePlacement.py:271-279` | what a booking takes of a host is the sum of the disc, of the RAM and of the number of all its members |
| `Bookings.Host.ApplyBooking` | `testbed/src/testbed/master/NodePlacement.py:285-295` | the booking is on the host and its resources are taken, so none goes below zero |
| `Bookings.Host.RemoveBooking` | `testbed/src/testbed/master/NodePlacement.py:297-305` | one occurrence of the booking leaves and its resources return |
| `Bookings.Booking.ChangeAmount` | `testbed/src/testbed/master/NodePlacement.py:406-413` | members move between the remaining count and the booking, with the resources on its host |
| `Bookings.Booking.BookGroup` | `testbed/src/testbed/master/NodePlacement.py:401-404` | books the target between least and greatest; fails exactly when fewer than the least number remain |
| `Bookings.Booking.SplitBooking` | `testbed/src/testbed/master/NodePlacement.py:366-395` | fails, changing nothing, exactly when some group has less than twice its least number; otherwise the booking keeps one half, a new one has the other, counts stay and the host gets the half back |
| `Bookings.Booking.RevertSplit` | `testbed/src/testbed/master/NodePlacement.py:361-364` | the booking takes over what the split holds, counts stay and the host is charged |
| `Ledger.SplitThenJoin` | `testbed/src/testbed/master/NodePlacement.py:361-395` | a split that is taken back at once leaves an empty booking and nothing else changed: orders, counts, hosts and resources |
| `Bookings.Booking.RemoveBooking` | `testbed/src/testbed/master/NodePlacement.py:353-359` | the booking leaves its host, which gets its resources back, and all its members return to their groups |
| `Ledger.BookKeeps` | `testbed/src/testbed/master/NodePlacement.py:401-404` | booking keeps the balance: per group remaining plus booked is its size, per host free plus used is its capacity, lists and hosts agree |
| `Ledger.SplitKeeps` | `testbed/src/testbed/master/NodePlacement.py:366-395` | splitting keeps the balance, on a host or off |
| `Ledger.JoinKeeps` | `testbed/src/testbed/master/NodePlacement.py:361-364` | taking a split back keeps the balance |
| `Ledger.ApplyKeeps` | `testbed/src/testbed/master/NodePlacement.py:285-295` | placing a booking on a host keeps the balance |
| `Ledger.RemoveKeeps` | `testbed/src/testbed/master/NodePlacement.py:353-359` | taking a booking away, from a host or not, keeps the balance |
| `Ledger.BookThenRemove` | `testbed/src/testbed/master/NodePlacement.py:353-404` | a booking that is taken away at once leaves an empty booking and nothing else changed |
| `Ledger.ResetIsStart` | `testbed/src/testbed/master/NodePlacement.py:786-794` | with no member booked and no booking on a host, counts are the group sizes and every host has what it had |
| `Ledger.BookedEnough` | `testbed/src/testbed/master/NodePlacement.py:366-404` | bookings on a host hold none of a group or at least its least number, two for a group bound to itself |
| `Ledger.BookedTogether` | `testbed/src/testbed/master/NodePlacement.py:681-700` | bookings that each hold some of every group of their pattern put members of two groups of one class on a host together or not at all |
| `Ledger.LackersSplit` | `testbed/src/testbed/master/NodePlacement.py:366-395` | a booking that lacks a group of its pattern is never halved |
| `Dealing.ShareWithinLimit` | `testbed/src/testbed/master/NodePlacement.py:685-694` | with at least ceil(size/limit) bookings the even shares are positive, within the limit, and enough |
| `Dealing.MinBookings` | `testbed/src/testbed/master/NodePlacement.py:682-688` | the number of bookings is the largest ceil(size/limit); an empty group makes it fail |
| `Dealing.BookingGen` | `testbed/src/testbed/master/NodePlacement.py:681-700` | it makes as many bookings as the tightest limit asks for, each with its exact share of what is left, and the balance holds; it fails exactly when some booking would find fewer members left than a group needs at least; on success nobody is left unbooked, so the top-up loop at the end is unreachable; every booking has members of every group exactly if the groups can be dealt out evenly, and otherwise some booking lacks a group |
| `Dealing.LastRound` | `testbed/src/testbed/master/NodePlacement.py:681-700` | dealing out evenly is the same as enough being left of each group for the last booking |
| `Placement.FindHost` | `testbed/src/testbed/master/NodePlacement.py:702-723` | the host found accepts the booking beside compatible bookings and is the one that the strategy prefers: the first, or, if many are to be used, the first without members, and only then the first with the fewest; none is found exactly if no host does |
| `Placement.AfterSplit` | `testbed/src/testbed/master/NodePlacement.py:773-778` | split and retry: the waiting list stays complete and its weight shrinks, so the loop ends |
| `Placement.ResetBookings` | `testbed/src/testbed/master/NodePlacement.py:786-794` | taking all bookings away ends, and leaves counts and hosts as at the start |
| `Placement.PlaceBookings` | `testbed/src/testbed/master/NodePlacement.py:770-803` | the steps are a run in which the first waiting booking goes to the host that the strategy prefers, and is halved only if none suits; it fails exactly when the run comes to a booking that suits no host and has not twice the least number of some group; on success all are placed, hosts stay compatible and balanced, and a booking that lacks a group keeps its order; on failure with the reset asked for, counts and hosts are as at the start |
| `Placement.CanHalveIff` | `testbed/src/testbed/master/NodePlacement.py:366-395` | a booking can be halved exactly if two orders that each have the least number of every group make it up |
| `Placement.PlaceFirst` | `testbed/src/testbed/master/NodePlacement.py:771-803` | one pass: the exact state and waiting list after putting or halving, and failure exactly for a booking that suits no host and cannot be halved |
| `Placement.PlaceComponent` | `testbed/src/testbed/master/NodePlacement.py:732-803` | after a component every one of its groups has no member left; it fails only when the members of some pattern cannot be dealt out, or a run of the loop comes to a booking that suits no host and cannot be halved |
| `Spreading.HalvesJoin` | `testbed/src/testbed/master/NodePlacement.py:835-836` | halves can go back one after another, within limits and resources |
| `Spreading.RevertAll` | `testbed/src/testbed/master/NodePlacement.py:849-850` | all halves back: the booking and its host are as they were |
| `Spreading.HalvedAmount` | `testbed/src/testbed/master/NodePlacement.py:366-395` | after k halvings a booking has one in 2^k of each group, rounded down, and half of that comes off next, rounded up |
| `Spreading.TrySpread` | `testbed/src/testbed/master/NodePlacement.py:813-850` | no host is found exactly when no unused host accepts any of the halves that come off as long as halving is allowed, and then all is as before; otherwise the first half that some unused host accepts is alone on one that accepts it, and the booking has all the rest again; hosts stay compatible, and bookings that lack a group keep their orders |
| `Spreading.Redistribute` | `testbed/src/testbed/master/NodePlacement.py:809-850` | spreading ends when no half that a placed booking allows fits on a host without bookings; it keeps the balance, compatibility, the counts, and that every member is on a host |
| `NodePlacement.CompatiblePatterns` | `testbed/src/testbed/master/NodePlacement.py:894-906` | patterns that may share a host have no exclusion between them, and are disjoint or a repeated pattern without limits |
| `NodePlacement.CompatibleIff` | `testbed/src/testbed/master/NodePlacement.py:894-906` | two patterns may share a host exactly if they are of different components, or of one container and not the same pattern with a limit |
| `NodePlacement.HostWithinLimit` | `testbed/src/testbed/master/NodePlacement.py:894-906` | no group exceeds its limit on a host |
| `NodePlacement.SelfContracts` | `testbed/src/testbed/master/NodePlacement.py:128-139` | in a correct placement no host has two members of a group excluded from itself, or a single one of a group bound to itself |
| `NodePlacement.PlacementCorrect` | `testbed/src/testbed/master/NodePlacement.py:636-851` | a balanced state with nothing left or waiting and compatible hosts is a correct placement |
| `NodePlacement.EvenShared` | `testbed/src/testbed/master/NodePlacement.py:681-851` | a class that was dealt out evenly is on the same hosts |
| `NodePlacement.UnevenApart` | `testbed/src/testbed/master/NodePlacement.py:681-851` | if a booking with a limited group lacks a group of its class, it shares its host with none of the class, so the class is not on the same hosts |
| `NodePlacement.Place` | `testbed/src/testbed/master/NodePlacement.py:636-851` | when placement returns normally all counts are 0, every member is on exactly one host, hosts are within places, RAM and disc, excluded groups share no host, limits and least numbers hold, a bound class shares its hosts if and only if it can be dealt out evenly, and with the strategy for many hosts no half of a booking fits on an empty one; it fails only when the members of some pattern cannot be dealt out, or when a run of the loop comes to a booking that suits no host and cannot be halved; a failure for want of a host leaves everything as it was, if asked to |
| `NodePlacement.PlaceGroups` | `testbed/src/testbed/master/NodePlacement.py:503-851` | the same from the contracts on: it fails only for a conflict or for one of these two reasons; a success keeps the exclusions, and has at most one member per host of a group that excludes itself |
| `BoundGroups.BoundShareHosts` | `testbed/src/testbed/master/NodePlacement.py:681-851` | in a successful placement the groups of a bound class with members are on the same hosts if and only if they can be dealt out evenly |
| `BoundGroups.BoundButApart` | `testbed/src/testbed/master/NodePlacement.py:681-851` | if a has too few members for the hosts that b needs, every correct placement has a host with b and without a, bound or not |
| `BoundExample.Run` | `testbed/src/testbed/master/NodePlacement.py:636-851` | four members of a, three of b, one b per host: everything is placed, and a and b are not on the same hosts |
| `Doubles.FlIsNearest` | `csupport/poly1305aes-20050218/poly1305_53_constants.c:7-25` | the rounding of the model returns a double, and no double is nearer |
| `Doubles.Exact` | `csupport/poly1305aes-20050218/poly1305_53_constants.c:7-25` | a multiple of a power of two with at most 53 bits is not rounded |
| `Doubles.AlphaSum` | `csupport/poly1305aes-20050218/poly1305_53_constants.c:7-25` | adding alpha = 3*2^51 units rounds to a multiple of the unit, to the nearest |
| `Doubles.CarryTrick` | `csupport/poly1305aes-20050218/poly1305_53_constants.c:7-25` | adding and subtracting alpha leaves the nearest multiple of the unit |
| `Poly1305.Constants` | `csupport/poly1305aes-20050218/poly1305_53_constants.c:7-25` | the decimal constants are the multiples of powers of two that the comments name |
| `Poly1305.SplitKey` | `csupport/poly1305aes-20050218/poly1305_53.c:217-397` | the loaded and split key registers hold limbs of the clamped key, their multiples by 5*2^-130 included, with every double operation exact |
| `Poly1305.CarryRegisters` | `csupport/poly1305aes-20050218/poly1305_53.c:512-658` | the carries keep the number modulo 2^130-5, exactly, and bring the limbs within bounds |
| `Poly1305Limbs.TimesIsProduct` | `csupport/poly1305aes-20050218/poly1305_53.c:640-738` | the sixteen limb products add up to the product modulo 2^130-5 |
| `Poly1305Limbs.TimesIsBounded` | `csupport/poly1305aes-20050218/poly1305_53.c:640-738` | the products stay within the bounds under which each addition is exact |
| `Poly1305.MultiplyRegisters` | `csupport/poly1305aes-20050218/poly1305_53.c:640-744` | the double products and sums are exactly these limbs |
| `Poly1305.AddBlockAt` | `csupport/poly1305aes-20050218/poly1305_53.c:408-504` | a full block adds its little-endian number plus 2^128 to the limbs |
| `Poly1305.TailBytes` | `csupport/poly1305aes-20050218/poly1305_53.c:932-1134` | the mask arithmetic reads only bytes of the message and yields the last k bytes, a 1, and zeros |
| `Poly1305.TailWords` | `csupport/poly1305aes-20050218/poly1305_53.c:932-1134` | these bytes make the words of the last block: its little-endian number plus 2^(8k) |
| `Poly1305.LastCarry` | `csupport/poly1305aes-20050218/poly1305_53.c:1333-1424` | the last carries and the four offsets leave words whose bits hold the number plus 2^130-5, exactly |
| `Poly1305.Reduced` | `csupport/poly1305aes-20050218/poly1305_53.c:1429-1508` | f + 5 - 2^130, when it is not negative, or else f, is the number modulo 2^130-5 |
| `Poly1305.WriteTag` | `csupport/poly1305aes-20050218/poly1305_53.c:1482-1597` | the sixteen bytes written are (f + s) mod 2^128 |
| `Poly1305.Absorb` | `csupport/poly1305aes-20050218/poly1305_53.c:399-1330` | for every message the limb sum stays congruent modulo 2^130-5 to the RFC value of the blocks taken so far |
| `Poly1305.Poly1305` | `csupport/poly1305aes-20050218/poly1305_53.c:15-1597` | for every message, clamped r and s, with any aliasing, the bytes written are the tag of section 2.5 of RFC 8439 |
| `Poly1305Example.TagOfExample` | `csupport/poly1305aes-20050218/poly1305_53.c:15-1597` | the tag is the one of the example in section 2.5.2 of RFC 8439 |
| `Poly1305Clamp.Clamp` | `csupport/poly1305aes-20050218/poly1305aes_53_clamp.c:9-40` | the clamped r is r AND 0x0ffffffc0ffffffc0ffffffc0fffffff, and the rest of kr is untouched |
| `AesTable.RowsKnown` | `csupport/poly1305aes-20050218/aes_big_constants.c:27-282` | every literal row of the table is what the S-box of FIPS 197 gives |
| `AesTable.InverseIsInverse` | `csupport/poly1305aes-20050218/aes_big_constants.c:27-282` | the inverse used by the S-box is an inverse, for every number but 0 |
| `AesTable.TableAt` | `csupport/poly1305aes-20050218/aes_big.c:265-280` | a lookup returns the row made from the S-box value of its byte |
| `Aes.MixedByTables` | `csupport/poly1305aes-20050218/aes_big.c:265-330` | the four table words of a column add up to MixColumns of the four bytes |
| `Aes.FullRound` | `csupport/poly1305aes-20050218/aes_big.c:259-332` | a table round is SubBytes, ShiftRows, MixColumns and AddRoundKey |
| `Aes.LastRound` | `csupport/poly1305aes-20050218/aes_big.c:360-428` | the masked lookups of the last round are SubBytes, ShiftRows and AddRoundKey |
| `Aes.KeySum` | `csupport/poly1305aes-20050218/aes_big.c:190-206` | what the interleaved schedule adds is SubWord of RotWord, and the round constant |
| `Aes.NextKey` | `csupport/poly1305aes-20050218/aes_big.c:252-256` | one round key makes the next, as in the key expansion |
| `Aes.AesBig` | `csupport/poly1305aes-20050218/aes_big.c:11-438` | for every key and block, out being either of them or neither, the result is the cipher of FIPS 197 under its key expansion |
| `AesExample.CipherOfExample` | `csupport/poly1305aes-20050218/aes_big.c:11-438` | the cipher gives the round states and the output of Appendix B of FIPS 197 |
| `AesExample.AesOfExample` | `csupport/poly1305aes-20050218/aes_big.c:11-438` | on the bytes of that key and block the code writes the bytes of that output |
| `Field25519.Addition` | `csupport/curve25519-wes-amd64/curve25519-wes.c:74-91` | the addition formulas give a point of the curve whose mirror image is on the chord, and which is the third intersection |
| `Field25519.SquareRoot` | `csupport/curve25519-wes-amd64/curve25519-wes.c:47-72` | the selected value squares to a if a is 0 or b^2 is 1; if b^2 is -1 and a is not 0, it does not |
| `Residues.Euler` | `csupport/curve25519-wes-amd64/curve25519-wes.c:26-46` | under Fermat's theorem a number has a root exactly if it is 0 or its (p-1)/2-th power is 1; otherwise that power is -1 |
| `Residues.RootIfSquare` | `csupport/curve25519-wes-amd64/curve25519-wes.c:47-72` | the formula gives a root exactly for the numbers that have one |
| `Field25519.Recovery` | `csupport/curve25519-wes-amd64/curve25519-wes.c:103-135` | the y formula is right unless R is the mirror image of A, and then it yields the y of A |
| `Curve25519.CurveMul` | `csupport/curve25519-wes-amd64/curve25519-wes.c:74-91` | for points with different x the array operation leaves their sum, also when out is a or b |
| `Curve25519.FieldSqrt` | `csupport/curve25519-wes-amd64/curve25519-wes.c:55-72` | the result is the formula's value; it is a root exactly if there is one (under Fermat's theorem; without it, for powers 1 and -1); the return value is 0 always |
| `Curve25519.CurveExpand` | `csupport/curve25519-wes-amd64/curve25519-wes.c:142-159` | from x and the sign bit: y is the formula's root with that sign; the point is on the curve exactly if some point has this x; the return value is 0 always |
| `Curve25519.FalseSuccess` | `csupport/curve25519-wes-amd64/curve25519-wes.c:71-71` | success is returned for 2u+1, which has no root, and for an x that no point has |
| `Curve25519.CurvePower` | `csupport/curve25519-wes-amd64/curve25519-wes.c:93-136` | from what the ladder leaves, x of R; and y of R, exactly unless R is the mirror image of A |
| `Curve25519.WrongMirror` | `csupport/curve25519-wes-amd64/curve25519-wes.c:126-135` | the y returned is wrong for the base point and its mirror image |
| `Curve25519.GeneratorOnCurve` | `csupport/curve25519-wes-amd64/curve25519-wes.c:166-177` | the base point satisfies the curve equation |
| `Crc32Table.TableEntry` | `csupport/crc32.c:23-111` | every entry of the literal table is what the generator computes |
| `Crc32.Round` | `csupport/crc32.c:132-132` | one table step multiplies the byte-swapped register by x^8 |
| `Crc32.Pad` | `csupport/crc32.c:119-122` | the message is padded in place with zeros to whole words |
| `Crc32.WombatCrc32` | `csupport/crc32.c:113-140` | the result is the complemented, byte-swapped remainder of the padded message with its first word complemented; only the padding is written |
| `Crc32Facts.OneWord` | `csupport/crc32.c:113-140` | a message of one word is its own CRC |
| `Crc32Facts.OneWordMore` | `csupport/crc32.c:126-138` | complemented and swapped back, a further word multiplies what was there by x^32 and is added |
| `Crc32Facts.ZeroMore` | `csupport/crc32.c:119-122` | zeros up to a whole word change nothing; these three facts fix the result for every message of at least one byte |
| `Crc32Theory.RemOfDividend` | `csupport/crc32.c:90-111` | whatever the quotient, the remainder found is the remainder modulo x^32 + 0x04c11db7 |
| `Crc32Theory.Divide` | `csupport/crc32.c:90-111` | every list of 32 or more coefficients has such a quotient and remainder |
| `Crc32Errors.NoCollision` | `csupport/crc32.c:113-140` | messages of one length that differ only within 32 consecutive bits have different results |
| `Renaming.FoundKeeps` | `testbed/src/testbed/base/Database.py:486-488` | crossing off an entry whose target is not to be renamed keeps each row on the way to its image |
| `Renaming.FreshKeeps` | `testbed/src/testbed/base/Database.py:480-485` | so does moving one id of a cycle to a fresh id |
| `Renaming.CycleOpened` | `testbed/src/testbed/base/Database.py:480-485` | when all targets are still to be renamed, opening a cycle leaves fewer ids that are both renamed and a target |
| `Database.NodeDatabase.ReplaceSingleStatisticID` | `testbed/src/testbed/base/Database.py:504-516` | renames one id in the three tables; fails exactly when a primary key would be violated |
| `Database.NodeDatabase.ReplaceStatisticIDs` | `testbed/src/testbed/base/Database.py:456-489` | for a one-to-one map that covers the ids, the loop ends, no rename hits an id in use at that moment, and every row has moved to its image as if all had moved at once |
| `Renaming.RunIsRenaming` | `testbed/src/testbed/base/Database.py:465-489` | for any map, a run that gets through is the simultaneous renaming; it violates no primary key exactly when the map is one-to-one on the ids in use |
| `Renaming.EndlessRun` | `testbed/src/testbed/base/Database.py:473-489` | a map of the table's ids with two entries for one target can be processed for ever, without violating a primary key |
| `Renaming.EndlessIff` | `testbed/src/testbed/base/Database.py:473-489` | the loop can make any number of passes if and only if some id outside a cycle of the map leads into it |
| `Renaming.AtMost` | `testbed/src/testbed/base/Database.py:473-489` | otherwise every run ends, within as many passes as the map has entries and ids that are both renamed and targets |
| `Dumps.DumpsRenamedIffIdentity` | `testbed/src/testbed/base/Database.py:447-488` | called for dumps the loop leaves them as asked exactly when each id in use was to stay |
| `Dumps.DumpNotRenamed` | `testbed/src/testbed/base/Database.py:486-488` | a dump that was to move from 1 to 2 stays at 1, and the statistic 1 moves to 2 |
| `Dumps.FreshIds` | `testbed/src/testbed/base/Database.py:473-488` | every run of a one-to-one map takes as many fresh ids as the map has cycles |
| `Dumps.MovesIffCrossed` | `testbed/src/testbed/base/Database.py:473-488` | called for dumps, the loop moves a statistic exactly if its id is crossed off, and then for good |
| `Dumps.StatisticsSurviveIff` | `testbed/src/testbed/base/Database.py:447-488` | the statistics survive every run for dumps exactly when no id in use is one a dump is to leave, or one of the fresh ids |
| `Database.NodeDatabase.ReplaceDumpIDs` | `testbed/src/testbed/base/Database.py:447-502` | the tables end as the moves of a run say, or a primary key stops it; statistics that are not endangered stay as they are |
| `Matching.GlobalSpace.MatchObject` | `testbed/src/testbed/base/DatabaseProcessing.py:90-104` | the id of the same global object, or a fresh one for a new object; ids and identities stay unique |
| `Matching.GlobalSpace.MatchObjectsWithGlobalSpace` | `testbed/src/testbed/base/DatabaseProcessing.py:82-106` | every local object gets the id of its global object; global ids never change |
| `Matching.SameIdSameStatistic` | `testbed/src/testbed/base/DatabaseProcessing.py:82-106` | two objects, from whichever databases, have one id exactly when they are the same |
| `Matching.OneToOneIffDistinct` | `testbed/src/testbed/base/DatabaseProcessing.py:82-106` | the id map is one-to-one exactly when no two local objects are the same |
| `Matching.PrepareStatistics` | `testbed/src/testbed/base/DatabaseProcessing.py:59-66` | after matching and renaming each statistic has its global id and every row still refers to its statistic |
| `Matching.PrepareHostDbIDs` | `testbed/src/testbed/base/DatabaseProcessing.py:52-79` | both halves: that still holds after the dumps were matched and renamed, if no statistic's id is endangered by the map of the dumps |
| `Matching.GlobalIdsSurviveIff` | `testbed/src/testbed/base/DatabaseProcessing.py:67-79` | after the second half the statistics have their global ids, in every run, exactly under that condition |
| `Matching.GlobalIdLost` | `testbed/src/testbed/base/DatabaseProcessing.py:67-79` | one statistic and one dump for which it fails |
| `Merging.Experiment.CopyStatisticEntries` | `testbed/src/testbed/base/Database.py:340-357` | merging a database adds its measurements key by key |
| `Merging.MergeAllMeans` | `testbed/src/testbed/base/Database.py:340-357` | the merged table has per statistic and time the total count, sum and sum of squares and the overall extremes |
| `Merging.OrderIrrelevant` | `testbed/src/testbed/base/Database.py:340-357` | whatever the order of the databases |
| `PostProcessing.CollectedMeans` | `testbed/src/testbed/master/controller/PostProcessing.py:255-310` | under its global id the merged table has the totals and extremes of what the rows of all databases say about a statistic and time, whatever ids they gave it |
| `PostProcessing.ByIdIff` | `testbed/src/testbed/base/Database.py:340-353` | a database says of an id and time exactly what some row of it has there |
| `PostProcessing.ByIdentityIff` | `testbed/src/testbed/base/DatabaseProcessing.py:59-66` | and of a statistic exactly what some row has that refers to an entry with its identity |
| `PostProcessing.ProcessCollectedDBs` | `testbed/src/testbed/master/controller/PostProcessing.py:239-310` | matching all databases and copying their measurements adds exactly this merge of all their rows, where no dump is in the way |
| `OnesComplement.Csum` | `csupport/cusp/icmp-packet.c:37-47` | the complement of the sum of all words in the machine's order, folded twice |
| `OnesComplement.FoldedSum` | `csupport/cusp/icmp-packet.c:37-47` | up to 65536 words, that is the checksum of RFC 1071, in the machine's byte order |
| `OnesComplement.SwappedSum` | `csupport/cusp/icmp-packet.c:37-47` | the sum of the words in machine order, folded and swapped, is the one's complement sum in network order |
| `OnesComplement.TwoFoldsEnoughIff` | `csupport/cusp/icmp-packet.c:43-46` | two folds give the one's complement sum exactly when the second leaves no carry |
| `OnesComplement.EqualIffValid` | `csupport/cusp/icmp-packet.c:127-135` | computing a checksum anew and comparing accepts what RFC 1071 accepts, but for a field of all ones beside a sum of all ones |
| `IcmpSpec.RoundTrip` | `csupport/cusp/icmp-packet.c:49-252` | the message about a packet is understood exactly if its code is known and IP can say its length, and then says what was sent, ports modulo 2^16 |
| `IcmpSpec.SentAgain` | `csupport/cusp/icmp-packet.c:49-252` | the reports understood from some message are exactly those with a known code, ports of 16 bits and a length that IP can say; each can be sent again and is understood in the same way |
| `IcmpSpec.SoundIff` | `csupport/cusp/icmp-packet.c:95-154` | a packet passes the checks exactly if it is well formed, its three checksums are valid by RFC 1071 or the outer header has none, and none of the three is all ones where zero would do |
| `IcmpSpec.OnesRejected` | `csupport/cusp/icmp-packet.c:95-103` | wherever a zero header checksum is sent and understood, all ones in its place are as valid by RFC 1071, and the packet is rejected |
| `IcmpSpec.OnesExample` | `csupport/cusp/icmp-packet.c:214-250` | an error without payload from 122.198.0.0 to 0.0.0.0 is sent with a header checksum of zero |
| `IcmpPacket.FixLengths` | `csupport/cusp/icmp-packet.c:82-93` | scrambled length and offset fields are put in order; any other wrong length fails |
| `IcmpSpec.DeliveredUnderstood` | `csupport/cusp/icmp-packet.c:82-93` | a message whose length and offset fields a system delivered scrambled is understood like the message itself, unless its length happens to look right |
| `IcmpPacket.Send` | `csupport/cusp/icmp-packet.c:174-252` | fails exactly when the buffer is too short, writing nothing; otherwise it holds exactly the headers and the payload of the message, as long as IP can say its length, and nothing past the given size is written |
| `IcmpSpec.SentBytes` | `csupport/cusp/icmp-packet.c:174-252` | the fields of the message by offset, as RFC 791, 792 and 768 place them; its four checksums are valid by RFC 1071, the one of UDP with the pseudo header of protocol 17 |
| `IcmpPacket.Recv` | `csupport/cusp/icmp-packet.c:49-172` | succeeds exactly on packets that make sense, and returns what they say; a packet understood stays as it was, but for repaired lengths and a missing header checksum |
| `IcmpPacket.SendAndReceive` | `csupport/cusp/icmp-packet.c:49-252` | what one writes the other reads, in one buffer, odd lengths included; it fails exactly for unknown codes and for lengths of 2^16 or more |
| `SingleCycle.Client.constructor` | `bindings/cpp/cusp/util/bidiconn.cpp:38-43` | the client writes the id of its answer service first, and remembers the request |
| `SingleCycle.Client.OnSendReady` | `bindings/cpp/cusp/util/singlecycleconn.cpp:92-99` | the request is sent once, then the stream is shut down; never with a write outstanding |
| `SingleCycle.Conn.OnReceive` | `bindings/cpp/cusp/util/bidiconn.cpp:131-150` | the first chunk yields the service id and opens the stream back; the rest of it and later chunks are the request |
| `SingleCycle.Conn.OnReceiveShutdown` | `bindings/cpp/cusp/util/singlecycleconn.cpp:208-228` | the handler is asked with the request; the answer is sent, or the stream shut down if it is empty, or left for later when the stream is not there yet |
| `SingleCycle.Conn.OnSendReady` | `bindings/cpp/cusp/util/singlecycleconn.cpp:180-199` | the first call marks the connection ready, the next shuts it down |
| `SingleCycle.Session.DeliverUp` | `bindings/cpp/cusp/util/bidiconn.cpp:131-150` | a chunk of any size keeps the session's invariant; the first has to hold the service id |
| `SingleCycle.Session.EndUp` | `bindings/cpp/cusp/util/singlecycleconn.cpp:208-228` | the end of the request keeps it: the server is asked once, with exactly the request |
| `SingleCycle.Session.Happen` | `bindings/cpp/cusp/util/singlecycleconn.cpp:86-228` | a callback that can come leaves less to happen; one that cannot changes nothing that is left |
| `SingleCycle.Session.CanGoOn` | `bindings/cpp/cusp/util/singlecycleconn.cpp:86-228` | the session is idle exactly when nothing is left to happen, and some callback can come otherwise |
| `SingleCycle.Run` | `bindings/cpp/cusp/util/singlecycleconn.cpp:86-228` | for every request, answer function and interleaving: asked at most once and with exactly the request, answered at most once and with exactly the answer; at most |request| + |answer| + 8 callbacks can come, one can as long as the session is not idle, and then the answer has arrived |
| `BufferedOutStream.BufferedOutStream.Write` | `bindings/cpp/cusp/util/bufferedoutstream.cpp:46-56` | data goes to the stream if it is ready, and behind the buffer otherwise |
| `BufferedOutStream.BufferedOutStream.AppendBuf` | `bindings/cpp/cusp/util/bufferedoutstream.cpp:97-115` | the buffer keeps its contents and gains the data; its allocation is doubled as often as it takes |
| `BufferedOutStream.DoubledEnough` | `bindings/cpp/cusp/util/bufferedoutstream.cpp:97-107` | the allocation grown by doubling is enough, a power of two times the start, and less than twice what is needed |
| `BufferedOutStream.BufferedOutStream.OnReady` | `bindings/cpp/cusp/util/bufferedoutstream.cpp:117-130` | the whole buffer is handed down, or the requested shutdown follows the last byte, or the stream is ready |
| `BufferedOutStream.Drive` | `bindings/cpp/cusp/util/bufferedoutstream.cpp:46-130` | in every orderly interleaving what was handed down, then the buffer, is everything written; once the stream rests all of it has been handed down, and it is shut down exactly if that was asked for |

## Left out

- NodePlacement.Place: makes no claim about when a placement exists that the heuristic misses.
- Placement.ResetBookings: takes the placed bookings from the hosts' lists, where the code keeps a list of its own of them.
- Placement.FindHost: hosts are visited in one given order; the ratings by which the code orders them, and those of patterns and components, are not modelled.
- Spreading.Redistribute: the hosts without bookings are computed at its start instead of being recorded while bookings are placed.
- Database.NodeDatabase.ReplaceStatisticIDs: takes only maps that are one-to-one, since the loop need not end for others; what happens with those is stated over all runs in `RunIsRenaming`.
- Database.NodeDatabase.ReplaceDumpIDs: takes only maps that are one-to-one, for the same reason.
- PostProcessing.ProcessCollectedDBs: the copied tables are measurements; live statistics are not aligned, and a host whose database fails is not skipped.
- Merging.Experiment.CopyStatisticEntries: attached rows have no null columns.
- Doubles.Exact: doubles have no largest exponent; the code's numbers stay far from it.
- Curve25519.FieldInv: an inverse if there is one; that every number but 0 has one is a hypothesis where it is needed (`Invertible`).
- Residues.Euler: the primality of 2^255 - 19 is a hypothesis in the form of Fermat's theorem (`Fermat`).
- Curve25519.CurveExpand: starts from the x in limbs and the sign bit; the routine that expands bytes into limbs is in assembler and not part of this model.
- Curve25519.CurvePower: starts from what the ladder leaves behind; the ladder is an assembler routine and not part of this model, nor is overflow of 64-bit limbs.
- Crc32.WombatCrc32: the machine is little-endian, as the code demands, and the buffer has room for the padding.
- OnesComplement.Csum: the sum does not overflow; it cannot for a 64-bit register, nor for a 32-bit one up to 65536 words.
- IcmpPacket.Send: the machine is little-endian, and the payload is not in the buffer.
- SingleCycle.Conn.OnReceive: demands that the first chunk holds the whole service id, as the code asserts; resets of the streams and the contact by address are not modelled.
- BufferedOutStream.BufferedOutStream.Shutdown: at most one, with a handler, and no write after it; `reset` is not modelled.
- The text output of containers and patterns, logging and host inspection.
- Parsing, alignment and time shift of measurements; histograms and dumps are copied, not merged.
- The activity simulation and its replay.
- Variants of Poly1305, AES and Curve25519 for other machines.
