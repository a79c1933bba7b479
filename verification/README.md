# Rate limits, transfer middleware and minting, verified

This project models the stateful core of a Cosmos chain with three modules of its
own and proves what they keep over whole runs.

* **x/ratelimit** counts what flows through each pair of denomination and channel,
  denies what exceeds a quota, takes failed sends back, and starts new windows by
  an epoch clock. `FlowLedger` says what each operation does to the ledger and
  records it in a history; `LedgerEffects` says it again in the fields of a limit and
  of the other modules' records; `LedgerRuns`, `PendingCover` and `DrainBound` prove
  statements about whole runs, and `LedgerExamples` gives the runs at which a bound
  fails; `ClockRuns` says what blocks and runs do to the clocks; `StoreKeys`,
  `ByteStore` and `RateLimitKeeper` prove that the code on the byte store performs
  the ledger operations; `KeyOrder` is about the order of keys;
  `RateLimitGenesis` covers export and import, `EpochClock` a single clock, and
  `Denoms` which denomination a packet is counted under.
* **x/transfermiddleware** pairs a native token with a voucher. `Registry` and
  `RegistryKeeper` cover the three indexes and the remove list. `Transfers` gives
  the combined effect of a transfer, a receipt and a refund on a small bank
  (`Coins`), and `TransferEffects` says it in balances and supplies alone;
  `TransferStack` runs the single bank calls, with the nested transfer,
  and is proved to have that effect; `TransferRuns` sets up whole runs,
  `Backing` proves conservation and solvency over them and `Refunds` what a failed
  send gives back, with a run in `TransferExamples`; `LimiterView` ties the two
  modules together.
* **x/mint** computes inflation and block provisions in 18-digit decimals:
  `LegacyDec`, `Inflation`, `MintKeeper`.
* The generated **wire codec** of the whitelist messages: `Varint`, `WireFields`,
  `WhitelistCodec`; `WireGrammar` and `WhitelistGrammar` say as a grammar which byte
  strings it accepts and what they mean.

State changing code is modelled by classes (`RateLimitKeeper.Keeper`,
`RegistryKeeper.Keeper`, `TransferStack.Stack`, `MintKeeper.MintKeeper`, the
receivers of the codec) whose methods follow the original statement by statement;
pure code is modelled by functions. `dafny verify dfyconfig.toml` checks everything.

## What is assumed

* IBC core: sequence numbers are used once, an acknowledgement or a timeout arrives
  at most once and for a packet in flight, amounts are positive, a failed step is
  reverted, and channel identifiers are `channel-<decimal>` of at most 16 bytes.
* An iterator visits the keys that were there when it was made, in byte order.
* Limits satisfy what message validation asks for: percentages between 0 and 100,
  a positive minimum, a positive duration.
* The trace hash is an injective function whose values hold no slash and no hyphen;
  paths are split as ibc-go v7 does, and the transfer application escrows, burns,
  mints and unescrows as ICS-20 says. Neither is part of this repository.
* Registered native denominations are base names that do not start with `ibc/`, and
  registered IBC denominations are vouchers of their channel. The code checks
  neither. A name that is the path of its own voucher would be overridden again by
  the nested transfer (`TransferStack.NameOfOwnPathIsOverriddenAgain`).
* Escrow accounts do not send: nobody has a key to them. They may receive. What a
  packet claims out of a pair's own escrow, which no transfer through that channel
  puts there, is accounted for as drawn; solvency is stated for runs in which nothing
  is drawn.
* Block times do not decrease, where clocks are said to keep time.

## What the proofs found

* The example in the documentation of `current_epoch_start_time` is one block late
  (`EpochClock.DocumentedExample`); the model follows the code.
* The receive-side cap alone is not kept: a failed send gives room back. It holds
  up to what was taken back in the window (`LedgerRuns.FlowCaps`), fails in a run of
  four steps (`LedgerExamples.ReceiveCapIsExceeded`), and survives an undo exactly
  under the condition of `LedgerExamples.UndoKeepsReceiveCapIff`.
* `UpdateRateLimit` and `RemoveRateLimit` leave pending packets behind, and a later
  timeout then makes the outflow negative
  (`LedgerExamples.UpdateLeavesNegativeOutflow`, `RemovalLeavesNegativeOutflow`); the
  exact conditions are `PendingCover.StartWindowCoversIff` and `RemoveCoversIff`.
* A reset of `channel-1` also clears the pending packets of `channel-10`
  (`StoreKeys.PendingScanMeets`), and with those of its own channel the pending packets
  of every other denomination, whose failed sends then stay counted
  (`LedgerRuns.ResetStrandsChannel`).
* Entries of the remove list are never deleted. The first removal therefore stops
  the loop at its own entry from then on (`Registry.RemovalJams`), and a token that
  is registered again goes again (`Registry.ComesBackToGoAgain`).
* A native denomination of the form `port/channel-n` is counted under two names on
  its way out and back (`Denoms.SentThenReturnedIff`; for example
  `TransferExamples.PairOutAndBack`), and an escrowed token of such a name does not come
  back as itself (`TransferEffects.ReturnsUnderItsNameIff`).
* Blocks per year of 2^63 or more turn negative in the inflation formula; exactly when
  that matters to some bonded ratio between 0 and 1 is
  `Inflation.InflationFallsWithBondingIff`.
* The clock of the default genesis is called `hour` and lasts a day, so the hours of a
  quota are days (`RateLimitGenesis.GenesisRoundTrip`); the model follows the code.
* A clock stands still, however late, behind one that is earlier in key order and
  starts later (`ClockRuns.ClockStandsStill`); the exact conditions are
  `ClockRuns.BlockMovesClockIff` and `CatchesUpIff`.
* A limit that was set before its native name was registered resets the voucher's limit
  from then on, at its own hours (`LedgerExamples.AnotherNameResets`); exactly when
  resets and windows agree is `DrainBound.DrainOnTimeIff` with `RegularIff`.
* Whitelist keys are two addresses written together, so pairs can share one
  (`FlowLedger.WhitelistCollision`); exactly when is `FlowLedger.WhitelistKeysCollideIff`.
* Validation accepts a negative yearly minimum, and then a block can panic and halt the
  chain (`Inflation.NegativeMinimumPanics`); exactly when is
  `Inflation.ProvisionPanicsIff`, and `Inflation.CanPanicIff` for parameters and supply.
* A voucher that is registered under another name while its packet is out is refunded
  in that name (`TransferExamples.TakeoverRun`); the exact condition is
  `Refunds.FailedSendRestoresIff`.
* Vouchers sent to the pair's escrow account stay there without native tokens for them
  (`Backing.ReceiveChanges`).

## Model

| member | source | states |
|---|---|---|
| Inflation.InflationStaysInBand | x/mint/types/minter.go:48-80 | for all valid parameters, negative amounts included, and positive supply the next rate lies between the rounded ratios of the yearly minimum and maximum to the supply; so rate times supply misses each of the two amounts by at most a supply unit, and by at most half a unit above a maximum of zero or more and below a minimum of zero or less |
| Inflation.InflationFallsWithBondingIff | x/mint/types/minter.go:48-80 | for all parameters: more bonding never raises the rate, whatever the minter, bonded ratios between 0 and 1 and supply, if and only if the year has fewer than 2^63 blocks, minimum and maximum coincide, or the change of a block comes out the same with nothing and with everything bonded |
| Inflation.InflationRisesWhenTheYearOverflows | x/mint/types/minter.go:64-64 | otherwise the conversion of the blocks per year to a signed number turns the change round: for all such parameters a minter, at supply 1, whose next rate is higher with everything bonded than with nothing bonded |
| Inflation.InflationRisesInAnOverflowingYear | x/mint/types/minter.go:64-64 | such parameters exist: a year of 2^64-1 blocks |
| Inflation.RateMovesBy | x/mint/types/minter.go:60-79 | for all parameters and minters: a rate that does not reach an end of its band moves in a block by (goal - ratio)/goal times the yearly change over the blocks of a year, up to a stated rounding error, the sign of the converted year included; without supply it does not move |
| Inflation.RateMovesToGoal | x/mint/types/minter.go:54-67 | with fewer than 2^63 blocks a year a rate inside its band never falls while less than the goal is bonded, never rises while more is, and stands at the goal |
| Inflation.ProvisionPanicsIff | x/mint/types/minter.go:90-93 | for every minter, a block provision panics if and only if the yearly amount is at least one token per block below zero, or, when the year has 2^63 blocks or more, reaches one token per (2^64 - blocks) |
| Inflation.CanPanicIff | x/mint/types/minter.go:48-93 | at a given supply some minter and ratio make a block panic if and only if the minimum ratio times supply, or the maximum when the year overflows, crosses that line: a condition on parameters and supply alone |
| Inflation.NegativeMinimumPanics | x/mint/types/minter.go:90-93 | validated parameters with a negative minimum whose first block panics |
| Inflation.BlockBounds | x/mint/types/minter.go:48-93 | one block pays, times the blocks of a year, at most the yearly maximum and at least the minimum up to the exact rounding terms |
| Inflation.YearlyEmission | x/mint/types/minter.go:48-93 | any year of consecutive blocks with varying positive supply up to S pays at most MaxTokenPerYear + S/(2*10^18) and at least MinTokenPerYear - S/10^18 - B |
| LegacyDec.ChopIsNearestEven | x/mint/types/minter.go:61-64 | rounding of a product or quotient is to the nearest unit, ties to even, so never off by more than half a unit |
| LegacyDec.QuoIsMonotone | x/mint/types/minter.go:61-64 | the decimal quotient by a positive divisor is monotone, through truncation and half-even rounding |
| LegacyDec.QuoIsNearest | x/mint/types/minter.go:61-64 | a decimal quotient by a positive divisor is off by at most half a unit and a 10^-18 part of one |
| LegacyDec.QuoTies | x/mint/types/minter.go:61-64 | exact ties of quotients and products go to the even neighbour, negative ones included |
| MintKeeper.MintKeeper.InitGenesis | x/mint/keeper/genesis.go:10-23 | the store starts with the given minter, parameters and the incentives in the pool |
| MintKeeper.MintKeeper.SetParams | x/mint/keeper/keeper.go:105-115 | only valid parameters are stored, everything else unchanged |
| MintKeeper.MintKeeper.ReceiveDeposit | x/mint/keeper/msg_server.go:42-69 | a credit to the module account raises the pool and changes nothing else |
| MintKeeper.MintKeeper.AddCollectedFees | x/mint/keeper/keeper.go:154-156 | the payout moves from the pool to the fee collector in full, or, if the pool cannot cover it, not at all |
| MintKeeper.MintKeeper.BeginBlocker | x/mint/abci.go:14-36 | one block stores the next minter and then pays all or nothing, exactly as the block step of a run |
| MintKeeper.PayoutsConserve | x/mint/abci.go:14-36 | in every run the pool plus the collected fees grow by the deposits and nothing else, per denomination |
| MintKeeper.SteadyRun | x/mint/abci.go:14-36 | with sound parameters no block halts, and what the fee collector gets over any number of blocks is bounded pro rata |
| MintKeeper.YearlyPayout | x/mint/abci.go:22-30 | over a year of blocks, deposits in between, the fee collector gets at most the yearly maximum plus half a supply unit |
| MintKeeper.BlockPays | x/mint/abci.go:28-35 | a block whose provision the pool covers lowers the pool and raises the collected fees by exactly that, any other block moves nothing, and no block moves another denomination |
| MintKeeper.PaidInFullIff | x/mint/abci.go:14-36 | over any steady run the fee collector gets at most what the minter wants to pay, and exactly that if and only if the pool covers every provision when it is due |
| MintKeeper.YearlyMinimumIsPaid | x/mint/abci.go:14-36 | a year of blocks with a pool that holds the yearly maximum, and half a supply unit, pays exactly what the minter wants, and so at least MinTokenPerYear - S/10^18 - B |
| MintKeeper.ParamsInForce | x/mint/keeper/keeper.go:105-115 | after every run that is not halted the last valid parameters are in force |
| Varint.SovIsLength | x/ratelimit/types/ratelimit.pb.go:697-699 | the size formula by bit length equals the number of bytes of the varint, for every 64-bit value |
| Varint.EncodeVarint | x/ratelimit/types/ratelimit.pb.go:598-608 | writes exactly the varint of v in the sov(v) bytes in front of the offset and returns where it starts; all other bytes stay |
| Varint.DecodeVarint | x/ratelimit/types/ratelimit.pb.go:1303-1316 | the shift-and-or loop returns on every input what the bytes mean as a little-endian base-128 number modulo 2^64, the offset behind it, or the same error; it never leaves the input |
| Varint.VarintRoundTrip | x/ratelimit/types/ratelimit.pb.go:598-608 | for every 64-bit v, in any surroundings, reading where v was written gives v and the offset just behind it |
| WireFields.DecodeTag | x/ratelimit/types/ratelimit.pb.go:1300-1325 | field number and wire type, with the 32-bit conversion and the two refusals, as specified on the byte string |
| WireFields.DecodeChunk | x/ratelimit/types/ratelimit.pb.go:1331-1358 | a length-delimited body inside the input or the error the code gives, negative and overflowing lengths included |
| WireFields.SkipUnknown | x/ratelimit/types/ratelimit.pb.go:1412-1489 | the skipping loop terminates on every input and computes the recursive specification with nested groups |
| WireFields.DecodeSkipField | x/ratelimit/types/ratelimit.pb.go:1391-1403 | skipping an unknown field ends inside the input or with an error |
| WireFields.DecodeField | x/ratelimit/types/ratelimit.pb.go:1300-1404 | one turn of the decode loop: a known field with its body, or a skipped one, always moving forward and ending inside the input |
| WireFields.SkipFieldInside | x/ratelimit/types/ratelimit.pb.go:1412-1489 | a field skipped in one byte string is skipped alike wherever it stands in a longer one |
| WireFields.FieldInside | x/ratelimit/types/ratelimit.pb.go:1300-1404 | a field read in one byte string is read alike wherever it stands in a longer one |
| WireGrammar.UnknownFieldIff | x/ratelimit/types/ratelimit.pb.go:1391-1489 | exactly which bytes are read as one unknown field: a tag, and by its wire type a varint, eight bytes, a length with that many bytes, fields with an end tag, or four bytes, with a number above the known ones; groups nested to any depth |
| WireGrammar.UnknownLayouts | x/ratelimit/types/ratelimit.pb.go:1412-1489 | for every number above the known ones the five layouts, byte by byte as they are written |
| WireGrammar.TagIsRead | x/ratelimit/types/ratelimit.pb.go:1317-1325 | a tag is accepted if and only if it ends no group and the low 32 bits of its number are a positive signed number, and is refused with the error of the test that fails |
| WireGrammar.LengthIsRead | x/ratelimit/types/ratelimit.pb.go:1331-1358 | a length is accepted if and only if the value ends inside the input; an end beyond 63 bits is an invalid length |
| WireGrammar.NoVarint | x/ratelimit/types/ratelimit.pb.go:1303-1316 | ten bytes that ask for another one overflow, and an input that ends before a varint does is at its end |
| WireGrammar.NoItem | x/ratelimit/types/ratelimit.pb.go:1470-1485 | wire types 6 and 7, and an end of a group with none open, are refused with their errors |
| WireGrammar.KnownIsDelimited | x/ratelimit/types/ratelimit.pb.go:1328-1330 | a known field of another wire type is refused |
| WireGrammar.FieldIsRead | x/ratelimit/types/ratelimit.pb.go:1300-1404 | a field of the grammar is read as itself wherever it stands |
| WireGrammar.ReadIsField | x/ratelimit/types/ratelimit.pb.go:1300-1404 | and whatever a turn of the decode loop reads is a field of the grammar |
| WhitelistCodec.SizeOfPair | x/ratelimit/types/ratelimit.pb.go:680-695 | Size is the number of bytes of the encoding |
| WhitelistCodec.SizeOfPairs | x/ratelimit/types/query.pb.go:1204-1217 | the same for the list |
| WhitelistCodec.MarshalPairToSizedBuffer | x/ratelimit/types/ratelimit.pb.go:576-596 | fills exactly the bytes in front of the end with the encoding, backwards, and leaves all others; returns their number |
| WhitelistCodec.MarshalPair | x/ratelimit/types/ratelimit.pb.go:561-569 | the backward cursor ends at zero: the fresh buffer of Size bytes is the encoding |
| WhitelistCodec.MarshalPairsToSizedBuffer | x/ratelimit/types/query.pb.go:1052-1072 | the same for the nested list, written from the last entry to the first |
| WhitelistCodec.MarshalPairs | x/ratelimit/types/query.pb.go:1037-1045 | the fresh buffer of Size bytes is the encoding of the whole list |
| WhitelistCodec.WhitelistedAddressPair.Unmarshal | x/ratelimit/types/ratelimit.pb.go:1298-1411 | on every byte string the loop computes the recursive decoder, receiver fields and error alike |
| WhitelistCodec.AllWhitelistedAddresses.Unmarshal | x/ratelimit/types/query.pb.go:1941-2024 | the same for the list, entries appended in order |
| WhitelistCodec.PairConcat | x/ratelimit/types/ratelimit.pb.go:1298-1411 | decoding a concatenation is decoding the one part after the other |
| WhitelistCodec.PairsConcat | x/ratelimit/types/query.pb.go:1941-2024 | the same for the list |
| WhitelistCodec.UnknownFieldInPair | x/ratelimit/types/ratelimit.pb.go:1391-1403 | a well-formed unknown field between any two fields does not change the decoded pair |
| WhitelistCodec.UnknownFieldInPairs | x/ratelimit/types/query.pb.go:2004-2016 | the same for the list |
| WhitelistCodec.PairRoundTrip | x/ratelimit/types/ratelimit.pb.go:1298-1411 | decoding the encoding of a pair gives the pair |
| WhitelistCodec.PairsRoundTrip | x/ratelimit/types/query.pb.go:1941-2024 | decoding the encoding of a list appends the list |
| WhitelistCodec.RoundTrip | x/ratelimit/types/query.pb.go:1037-1072 | marshalling any list into a buffer and unmarshalling the buffer gives the same list and no error |
| WhitelistGrammar.PairDecodesIff | x/ratelimit/types/ratelimit.pb.go:1298-1411 | a byte string is decoded without error if and only if it is a sequence of acceptable fields; however it is cut into them, the sender is the last field 1 and the receiver the last field 2 |
| WhitelistGrammar.PairsDecodeIff | x/ratelimit/types/query.pb.go:1941-2024 | the list is decoded without error if and only if it is a sequence of acceptable fields whose field 1 bodies are pairs; they are appended in order |
| WhitelistGrammar.PairStops | x/ratelimit/types/ratelimit.pb.go:1298-1411 | a decoding that fails leaves what the fields before the failing one said |
| WhitelistGrammar.FailedPairIsKept | x/ratelimit/types/query.pb.go:1995-2001 | a pair that cannot be decoded has been appended as far as it was read |
| WhitelistGrammar.PairIsShortest | x/ratelimit/types/ratelimit.pb.go:576-596 | no byte string shorter than the encoding of a pair is decoded into it, so empty strings are left out and lengths are minimal |
| WhitelistGrammar.PairsAreShortest | x/ratelimit/types/query.pb.go:1052-1072 | the same for the list |
| KVStore.SortedKeys | x/transfermiddleware/keeper/keeper.go:122-134 | the order of an iterator: every key once, ascending |
| StoreKeys.RateLimitKeyReadsBack | x/ratelimit/keeper/rate_limit.go:19-21 | denomination and channel can be read off the separator-free key, for `channel-<digits>` identifiers |
| StoreKeys.RateLimitKeyIsInjective | x/ratelimit/keeper/rate_limit.go:19-21 | on such identifiers two limits share a key if and only if they are one |
| StoreKeys.RateLimitKeysCollideIff | x/ratelimit/keeper/rate_limit.go:19-21 | for arbitrary identifiers, exactly when two keys collide |
| StoreKeys.RateLimitKeyCollision | x/ratelimit/keeper/rate_limit.go:19-21 | a concrete collision with an identifier that is not IBC's own |
| StoreKeys.PendingKeyReadsBack | x/ratelimit/types/keys.go:33-41 | channel and sequence are read back from the padded key, NUL trimming and big-endian order included, for all 64-bit sequences |
| StoreKeys.PendingKeyIsInjective | x/ratelimit/types/keys.go:33-41 | the padded key is injective up to 16 bytes of channel |
| StoreKeys.PendingScanMeets | x/ratelimit/keeper/rate_limit.go:343-352 | a scan over the unpadded channel meets exactly the packets whose channel starts with it |
| KeyOrder.PendingKeysInOrder | x/ratelimit/types/keys.go:33-41 | the keys of a channel's pending packets are in byte order exactly as their sequence numbers are |
| ByteStore.LimitLookup | x/ratelimit/keeper/rate_limit.go:170-182 | a lookup under a raw key finds a limit if and only if there is one on the path |
| ByteStore.LimitWrite | x/ratelimit/keeper/rate_limit.go:139-146 | a write under a raw key updates the map of limits at one path |
| ByteStore.LimitDelete | x/ratelimit/keeper/rate_limit.go:162-164 | a deletion under a raw key removes one path |
| ByteStore.PendingLookup | x/ratelimit/keeper/rate_limit.go:311-317 | a pending key is stored if and only if the packet is pending |
| ByteStore.PendingScan | x/ratelimit/keeper/rate_limit.go:343-352 | deleting all keys under a channel leaves exactly the packets of channels that do not start with it |
| ByteStore.StoreIsDetermined | x/ratelimit/keeper/rate_limit.go:139-146 | the limits determine the bytes of the store |
| FlowLedger.WhitelistKeysCollideIff | x/ratelimit/types/keys.go:43-45 | for any addresses, exactly when two pairs share the separator-free whitelist key: when a part of an address moves from one side to the other |
| FlowLedger.WhitelistKeyIsInjective | x/ratelimit/types/keys.go:43-45 | pairs whose senders have the same length share a key if and only if they are one |
| FlowLedger.WhitelistCollision | x/ratelimit/types/keys.go:43-45 | two different pairs of which whitelisting the one exempts the other |
| EpochClock.MovesIffBehind | x/ratelimit/keeper/abci.go:27-28 | the strict comparison makes a clock that is visited move exactly while it shows an epoch before the right one |
| EpochClock.TickStamps | x/ratelimit/keeper/abci.go:32-54 | a block that starts an epoch stamps the clock with its height, and any other leaves the clock as it was |
| ClockRuns.BlockMovesClockIff | x/ratelimit/keeper/abci.go:14-58 | in every ledger a block moves a clock by its own tick if no clock at or before it in key order starts later than now, and leaves it as it is otherwise |
| ClockRuns.FirstClockStopsAll | x/ratelimit/keeper/abci.go:20-22 | a first clock in key order whose start time has not come makes the whole block do nothing: no clock moves and no limit is reset |
| ClockRuns.ClockStandsStill | x/ratelimit/keeper/abci.go:20-22 | a clock called day that starts at 1000 keeps an hour that should start at once from starting |
| ClockRuns.StalledBlocksMoveClockIff | x/ratelimit/keeper/abci.go:14-58 | any number of blocks at one time move a clock as if it were alone, or not at all, by the same condition |
| ClockRuns.CatchesUpIff | x/ratelimit/keeper/abci.go:14-58 | in blocks at a stalled time a fresh clock that is due gains one epoch a block until it shows max(1, ceil((t-StartTime)/Duration)), if and only if no clock before it starts later; otherwise it does not move |
| ClockRuns.GainsEpochsIff | x/ratelimit/keeper/abci.go:14-58 | the same for a started clock that is behind |
| ClockRuns.ClocksKeepTime | x/ratelimit/keeper/abci.go:14-58 | in every run of all ledger operations whose block times do not decrease, every clock always shows StartTime + (CurrentEpoch-1)*Duration, not after the block time, and moves forward by at most one epoch a block |
| EpochClock.DocumentedExample | x/ratelimit/types/epoch.pb.go:47-64 | the catch-up example of the field documentation is one block late |
| LedgerRuns.UndoKeepsSound | x/ratelimit/keeper/rate_limit.go:92-108 | taking a send back keeps every limit equal to its history and within its caps |
| LedgerRuns.StepKeepsInv | x/ratelimit/keeper/rate_limit.go:59-136 | every send, receipt, acknowledgement, timeout, administrative message, whitelist change and block keeps the invariant that ties limits, pending set, packets in flight and history together |
| LedgerEffects.IgnoredIff | x/ratelimit/keeper/rate_limit.go:59-72 | a packet is passed over if and only if its path has no limit or a non-empty entry is stored under its two addresses written together |
| LedgerEffects.ReceiptIsDeniedIff | x/ratelimit/types/quota.go:9-26 | a receipt on a limited path is denied if and only if net inflow plus amount is above the minimum and above value * maxPercentRecv / 100, where there is value; otherwise its inflow grows by the amount and nothing else changes |
| LedgerEffects.SendIsDeniedIff | x/ratelimit/types/quota.go:9-26 | a send likewise, by net outflow and maxPercentSend |
| LedgerEffects.PercentagesApart | x/ratelimit/types/quota.go:15-19 | 10 per cent out and 50 in of 100: a receipt of 20 is counted and a send of 20 denied |
| LedgerEffects.AddInstalls | x/ratelimit/keeper/rate_limit.go:185-230 | both refusals in their order; otherwise the remapped path has the message's two percentages, duration and minimum, no flow, and the supply of the remapped denomination, and nothing else changes |
| LedgerEffects.UpdateInstalls | x/ratelimit/keeper/rate_limit.go:233-274 | the same for an update, which replaces the old settings and is refused only where there is no limit |
| LedgerEffects.RemovalRemoves | x/ratelimit/keeper/rate_limit.go:149-167 | a removal takes the limit of the remapped path, and nothing else |
| LedgerEffects.ResetEmpties | x/ratelimit/keeper/rate_limit.go:113-136 | a reset keeps the settings of the remapped path, empties its flow, takes the supply anew and forgets exactly the pending packets of channels that start like the given one |
| LedgerEffects.SettingsAreInForce | x/ratelimit/keeper/rate_limit.go:185-274 | in every run from an empty ledger the limits that stand, and their settings, are exactly what the additions, updates and removals of the run left in force; no block and no packet changes them |
| LedgerEffects.NeverPendingAgain | x/ratelimit/keeper/rate_limit.go:295-307 | in every run a packet that has been sent and is not pending is never pending again |
| LedgerEffects.AcknowledgedIsSettled | x/ratelimit/keeper/packet.go:203-210 | an acknowledged success settles its packet for good, and touches no other packet and no limit |
| LedgerRuns.ExactLedger | x/ratelimit/keeper/rate_limit.go:59-136 | in every run outflow and inflow are exactly what was counted since the last zeroing less what was taken back; each counted send is taken back at most once, never after a reset that cleared it, and with its own path and amount |
| LedgerRuns.FailedSendIsTakenBackIff | x/ratelimit/keeper/rate_limit.go:92-108 | in every run a failed send is taken back if and only if its path has a limit and the history says it was counted there and neither taken back nor cleared since; otherwise its failure changes nothing |
| LedgerRuns.ResetStrandsChannel | x/ratelimit/keeper/rate_limit.go:343-352 | in every run a reset of one denomination leaves no failed send of any denomination on its channel to be taken back |
| LedgerRuns.FlowCaps | x/ratelimit/types/flow.go:21-47 | in every reachable state with channel value the net outflow is within the minimum or value * maxPercentSend / 100, and the net inflow within the minimum or value * maxPercentRecv / 100, plus what was taken back in the window |
| LedgerExamples.UndoKeepsReceiveCapIff | x/ratelimit/keeper/rate_limit.go:98-104 | taking a send back keeps the receiving cap if and only if the net inflow plus the amount is within it |
| LedgerExamples.ReceiveCapIsExceeded | x/ratelimit/keeper/rate_limit.go:98-104 | a run of four steps from an empty ledger whose net inflow ends above the receiving threshold |
| PendingCover.OutflowCoversPending | x/ratelimit/keeper/rate_limit.go:92-136 | if updates and removals happen only with nothing pending on their path, outflow is at least the sum of the pending amounts, and so at least zero, in every run |
| PendingCover.StartWindowCoversIff | x/ratelimit/keeper/rate_limit.go:233-274 | a new window without clearing keeps that cover if and only if nothing of the path is pending |
| PendingCover.RemoveCoversIff | x/ratelimit/keeper/rate_limit.go:149-167 | a removal keeps it if and only if nothing of the path is pending |
| PendingCover.UpdateThenTimeout | x/ratelimit/keeper/rate_limit.go:233-274 | from every world with a pending packet, an update of its limit followed by its timeout makes the outflow negative |
| LedgerExamples.UpdateLeavesNegativeOutflow | x/ratelimit/keeper/rate_limit.go:233-274 | a run of four steps from an empty ledger that ends with a negative outflow through an update |
| LedgerExamples.RemovalLeavesNegativeOutflow | x/ratelimit/keeper/rate_limit.go:149-167 | a run of five steps from an empty ledger that ends with a negative outflow through a removal |
| DrainBound.Drain | x/ratelimit/keeper/epoch.go:118-131 | over any run in which no message updates, removes or resets the limit, under whatever names other limits reach its path, it is reset exactly as often as the run's hour ends find due limits whose name stands for its path, and what leaves, net, is at most the thresholds of the first window and of those the resets opened, each no more than the threshold at the largest supply |
| DrainBound.HitsAreDueNames | x/ratelimit/keeper/epoch.go:118-131 | one hour end resets a path exactly as often as there are limits that are due and whose path is remapped onto it or is it; so the list of all limits is gone through once each |
| DrainBound.DrainOnTimeIff | x/ratelimit/keeper/epoch.go:118-131 | every step of such a run resets the limit exactly once per whole window that ends, if and only if every hour end in it is regular |
| DrainBound.RegularIff | x/ratelimit/keeper/rate_limit.go:113-119 | an hour end is regular if and only if no other due limit is remapped onto the path, or, if the path is itself remapped when its window ends, exactly one is |
| DrainBound.RegularRunIsOnTime | x/ratelimit/keeper/epoch.go:118-131 | and then there are floor((e-1)/h) - floor((e0-1)/h) resets in all |
| DrainBound.SeparateIsRegular | x/ratelimit/keeper/epoch.go:118-131 | in particular while the path goes by one name only |
| LedgerExamples.AnotherNameResets | x/ratelimit/keeper/rate_limit.go:185-230 | two messages that name one native token, the first before it is registered and the second after, give an hourly limit and a daily one; the first hour end, which ends no window of the daily one, resets it |
| DrainBound.HourEndDrains | x/ratelimit/keeper/epoch.go:118-131 | in every ledger one hour end resets a limit exactly as often as due limits stand for its path, and never raises the drain potential |
| RateLimitKeeper.FlowRecord.CheckExceedsQuota | x/ratelimit/types/quota.go:8-26 | the branching code decides exactly whether the amount is above both the minimum and, for a receipt, value * maxPercentRecv / 100, for a send, value * maxPercentSend / 100; never for a path without value |
| RateLimitKeeper.FlowRecord.AddInflow | x/ratelimit/types/flow.go:21-32 | the inflow grows by the amount, or nothing changes and the quota would have been exceeded |
| RateLimitKeeper.FlowRecord.AddOutflow | x/ratelimit/types/flow.go:36-47 | the same for the outflow |
| RateLimitKeeper.UpdateFlow | x/ratelimit/keeper/rate_limit.go:46-55 | the direction selects the flow; result and refusal as in the ledger |
| RateLimitKeeper.Keeper.GetRateLimit | x/ratelimit/keeper/rate_limit.go:170-182 | the limit of the path, if there is one |
| RateLimitKeeper.Keeper.SetRateLimit | x/ratelimit/keeper/rate_limit.go:139-146 | writes one path of the ledger |
| RateLimitKeeper.Keeper.GetAllRateLimits | x/ratelimit/keeper/rate_limit.go:277-292 | all limits in key order |
| RateLimitKeeper.Keeper.SetPendingSendPacket | x/ratelimit/keeper/rate_limit.go:295-299 | adds one packet to the pending set |
| RateLimitKeeper.Keeper.RemovePendingSendPacket | x/ratelimit/keeper/rate_limit.go:303-307 | removes one packet from the pending set |
| RateLimitKeeper.Keeper.CheckPacketSentDuringCurrentQuota | x/ratelimit/keeper/rate_limit.go:311-317 | tells whether the packet is pending |
| RateLimitKeeper.Keeper.GetAllPendingSendPackets | x/ratelimit/keeper/rate_limit.go:320-339 | the labels of all pending packets in key order |
| RateLimitKeeper.Keeper.RemoveAllChannelPendingSendPackets | x/ratelimit/keeper/rate_limit.go:343-352 | the deleting iteration clears exactly the packets of channels that start with the identifier |
| RateLimitKeeper.Keeper.SetWhitelistedAddressPair | x/ratelimit/keeper/rate_limit.go:356-361 | files a pair under its two addresses |
| RateLimitKeeper.Keeper.RemoveWhitelistedAddressPair | x/ratelimit/keeper/rate_limit.go:364-368 | removes the entry under two addresses |
| RateLimitKeeper.Keeper.IsAddressPairWhitelisted | x/ratelimit/keeper/rate_limit.go:371-379 | tells whether a non-empty entry is stored under the two addresses |
| RateLimitKeeper.Keeper.GetAllWhitelistedAddressPairs | x/ratelimit/keeper/rate_limit.go:382-396 | all entries in key order |
| RateLimitKeeper.Keeper.CheckRateLimitAndUpdateFlow | x/ratelimit/keeper/rate_limit.go:59-89 | ignored, denied or counted, with the ledger changed only when counted |
| RateLimitKeeper.Keeper.SendRateLimitedPacket | x/ratelimit/keeper/packet.go:161-178 | counts a send and marks it pending if and only if it was counted |
| RateLimitKeeper.Keeper.ReceiveRateLimitedPacket | x/ratelimit/keeper/packet.go:182-190 | counts a receipt or denies it |
| RateLimitKeeper.Keeper.UndoSendPacket | x/ratelimit/keeper/rate_limit.go:92-108 | takes a pending send back, or does nothing |
| RateLimitKeeper.Keeper.AcknowledgeRateLimitedPacket | x/ratelimit/keeper/packet.go:194-220 | a result settles the packet, an empty one is refused, an error takes the send back |
| RateLimitKeeper.Keeper.TimeoutRateLimitedPacket | x/ratelimit/keeper/packet.go:224-231 | takes the send back |
| RateLimitKeeper.Keeper.AddRateLimit | x/ratelimit/keeper/rate_limit.go:185-230 | performs the ledger operation, errors included, on the remapped path |
| RateLimitKeeper.Keeper.UpdateRateLimit | x/ratelimit/keeper/rate_limit.go:233-274 | the same; pending packets stay |
| RateLimitKeeper.Keeper.RemoveRateLimit | x/ratelimit/keeper/rate_limit.go:149-167 | the same; pending packets stay |
| RateLimitKeeper.Keeper.ResetRateLimit | x/ratelimit/keeper/rate_limit.go:113-136 | zeroes the flow, takes the channel value anew and clears the pending packets under the channel |
| RateLimitKeeper.Keeper.AfterEpochEnd | x/ratelimit/keeper/epoch.go:118-131 | the loop resets each limit whose window ends with this hour, in key order |
| RateLimitKeeper.Keeper.VisitEpoch | x/ratelimit/keeper/abci.go:16-57 | one clock in one block: started, ended with its resets, left alone, or the iteration stopped |
| RateLimitKeeper.Keeper.BeginBlocker | x/ratelimit/keeper/abci.go:14-58 | the iteration over the clocks, up to the first whose start time has not come |
| RateLimitKeeper.Keeper.AddEpochInfo | x/ratelimit/keeper/epoch.go:37-54 | refuses invalid and repeated clocks; fills in start time and height |
| RateLimitKeeper.Keeper.InitGenesis | x/ratelimit/keeper/genesis.go:12-38 | for every genesis: panics exactly when a label or a clock is refused, and otherwise fills the stores as the import says; limits and packets on IBC channels then form the imported ledger |
| ByteStore.ImportHolds | x/ratelimit/keeper/genesis.go:12-38 | importing into stores panics exactly when importing into a ledger does, and on IBC channels the stores hold that ledger |
| RateLimitKeeper.Keeper.ExportGenesis | x/ratelimit/keeper/genesis.go:40-49 | gives the export of the ledger |
| RateLimitGenesis.LabelReadsBack | x/ratelimit/keeper/genesis.go:20-31 | every printed packet label is split and parsed back, for all 64-bit sequences |
| RateLimitGenesis.LabelExample | x/ratelimit/keeper/rate_limit.go:320-339 | the channel comes first and the number in decimal: channel-0/12 |
| RateLimitGenesis.ImportPanicsIff | x/ratelimit/keeper/genesis.go:12-41 | an import panics if and only if a pending label is not a channel and a 64-bit number, or a clock is unusable or shares its name; otherwise exactly the labelled packets are pending and every clock stands with its start time filled in and the height stamped |
| RateLimitGenesis.LastLimitStays | x/ratelimit/keeper/genesis.go:14-16 | of several imported limits on one path the last stays |
| RateLimitGenesis.GenesisRoundTrip | x/ratelimit/keeper/genesis.go:12-55 | importing an export restores limits, whitelist and pending set, for every state; the clocks are replaced by one called hour whose epochs last a day |
| RateLimitKeeper.Reimport | x/ratelimit/keeper/genesis.go:12-49 | the same for the stores themselves, byte key by byte key |
| Denoms.TraceIsStable | x/ratelimit/keeper/packet.go:40-53 | splitting a path that was written out of a trace gives that trace, for every string |
| Denoms.TraceIff | x/ratelimit/keeper/packet.go:40-60 | a denomination is a trace if and only if it has more than two parts and the second is a channel identifier; otherwise it is its own base |
| Denoms.ChannelIDs | x/ratelimit/keeper/packet.go:40-60 | a channel identifier is channel- and digits, and every 64-bit number makes one |
| Denoms.SendCountsBankDenom | x/ratelimit/keeper/packet.go:40-53 | a send is counted under the denomination the bank held the token in |
| Denoms.ReceiveCountsBankDenom | x/ratelimit/keeper/packet.go:87-113 | a receipt is counted under the denomination the bank holds the token in afterwards, which is also the one counted when it is sent on or back; for every packet denomination |
| Denoms.SentThenReturnedIff | x/ratelimit/keeper/packet.go:40-113 | a token sent out and back is counted under one denomination both times if and only if its name is not itself just a port and a channel |
| TransferExamples.PairOutAndBack | x/ratelimit/keeper/packet.go:40-113 | the token named pool/channel-7 is counted under two denominations on its way out and back, over every channel |
| Denoms.SendDenomIsInjective | x/ratelimit/keeper/packet.go:40-53 | two tokens are counted together only if they are one, the hash being injective |
| Denoms.MoveKeepsReduced | x/ratelimit/keeper/packet.go:87-113 | wherever a token goes, its path never holds a hop followed by its undoing |
| Denoms.NativeIsReduced | x/ratelimit/keeper/packet.go:40-53 | a token on its own chain starts out with such a path |
| Denoms.ExcursionReturns | x/ratelimit/keeper/packet.go:68-86 | any way out over any number of chains and the same way back restore the path |
| Denoms.CountedAlike | x/ratelimit/keeper/packet.go:40-113 | a token that leaves, travels any way and back and returns through the same channel is counted under one denomination both times |
| Registry.BlockRemovesIff | x/transfermiddleware/keeper/abci.go:10-22 | one block unregisters exactly the due tokens that precede, in key order, the first due entry without a token; nothing else changes |
| Registry.NeverTooEarly | x/transfermiddleware/keeper/keeper.go:97-118 | in every run no token is removed at or before the time its removal was last put to, nor without one |
| Registry.OverdueEntryJams | x/transfermiddleware/keeper/abci.go:14-18 | an overdue entry without a token keeps every later token registered, in every run, until its own token is registered again |
| Registry.RemovalJams | x/transfermiddleware/keeper/abci.go:10-22 | so a removal keeps later blocks from removing any token after it in key order |
| Registry.ComesBackToGoAgain | x/transfermiddleware/keeper/abci.go:10-22 | a token registered again under its old, overdue entry is removed by the next block if and only if nothing overdue before it is missing |
| Registry.RunKeepsUnique | x/transfermiddleware/keeper/keeper.go:65-93 | native, asset and IBC denominations stay unique in every run |
| Registry.AddIff | x/transfermiddleware/keeper/keeper.go:65-93 | a registration succeeds if and only if asset, IBC and native denomination are all new, and then adds the record as it is; otherwise the first that is taken is named |
| RegistryKeeper.IndexesMeanUnique | x/transfermiddleware/keeper/keeper.go:65-93 | three agreeing indexes hold one duplicate-free set of records, and each tells exactly what is taken |
| RegistryKeeper.IndexesAreDetermined | x/transfermiddleware/keeper/keeper.go:87-91 | the records determine the indexes |
| RegistryKeeper.Keeper.AddParachainIBCInfo | x/transfermiddleware/keeper/keeper.go:65-93 | adds one record to all three indexes, or refuses with the first of the three duplicates in the order asset, IBC, native |
| RegistryKeeper.Keeper.AddParachainIBCInfoToRemoveList | x/transfermiddleware/keeper/keeper.go:97-118 | schedules a registered token, replacing its time |
| RegistryKeeper.Keeper.RemoveParachainIBCInfo | x/transfermiddleware/keeper/keeper.go:138-154 | removes one record from all three indexes, or nothing |
| RegistryKeeper.Keeper.GetParachainIBCTokenInfoByNativeDenom | x/transfermiddleware/keeper/keeper.go:212-219 | the record of the native denomination, or an empty one |
| RegistryKeeper.Keeper.GetParachainIBCTokenInfoByAssetID | x/transfermiddleware/keeper/keeper.go:221-228 | the record of the asset, or an empty one |
| RegistryKeeper.Keeper.GetNativeDenomByIBCDenomSecondaryIndex | x/transfermiddleware/keeper/keeper.go:230-235 | the native denomination of the IBC one, or nothing |
| RegistryKeeper.Keeper.BeginBlocker | x/transfermiddleware/keeper/abci.go:10-22 | the loop over the remove list performs the sweep |
| RegistryKeeper.Keeper.ExportGenesis | x/transfermiddleware/keeper/genesis.go:46-57 | all records in asset order |
| RegistryKeeper.Keeper.InitGenesis | x/transfermiddleware/keeper/genesis.go:11-19 | adds the records in turn and panics exactly at a duplicate |
| RegistryKeeper.AddingBack | x/transfermiddleware/keeper/genesis.go:11-57 | adding exported records back, in asset order, never meets a duplicate and rebuilds them all |
| RegistryKeeper.Reimport | x/transfermiddleware/keeper/genesis.go:11-57 | an export imported into an empty store rebuilds all three indexes exactly; the remove list is lost |
| Coins.HoldingsWithinSupply | x/transfermiddleware/keeper/ics4wrapper.go:56-75 | in a bank whose balances add up to the supply, what two accounts hold is covered by it |
| Coins.BurnConserves | x/transfermiddleware/keeper/ics4wrapper.go:61-68 | burning keeps balances and supply in step |
| TransferStack.Stack.Transfer | x/transfermiddleware/keeper/ics4wrapper.go:78-93 | the application's transfer with the middleware behind it has the combined effect, at most one level deeper, and hands on exactly one packet with the same amount, sender, receiver and memo |
| TransferStack.Stack.SendPacket | x/transfermiddleware/keeper/ics4wrapper.go:104-127 | passes a packet on as it is, or, for a registered native name on its channel, the packet of its voucher |
| TransferStack.Stack.HandleOverrideSendPacketTransferLogic | x/transfermiddleware/keeper/ics4wrapper.go:25-94 | escrow to module, burn, release and nested transfer together burn native token and voucher in escrow; it fails exactly when a balance or the trace is missing or the packet is refused |
| TransferStack.Stack.DeliverTransfer | x/transfermiddleware/keeper/ics4wrapper.go:104-127 | the recursion starts at depth one; a failed transfer changes nothing |
| TransferStack.Stack.AppOnRecvPacket | x/transfermiddleware/ibc_middleware.go:95-95 | the application's receipt: out of escrow, or minted under a stored trace |
| TransferStack.Stack.KeeperOnRecvPacket | x/transfermiddleware/keeper/relay.go:14-84 | locks the voucher and mints the native token if and only if both lookups agree on a record of this channel |
| TransferStack.Stack.OnRecvPacket | x/transfermiddleware/ibc_middleware.go:89-113 | application, then keeper; an error acknowledgement leaves no trace |
| TransferStack.Stack.AppRefund | x/transfermiddleware/ibc_middleware.go:122-125 | the application's refund: out of escrow, or minted |
| TransferStack.Stack.RefundToken | x/transfermiddleware/keeper/ics4wrapper.go:169-216 | locks the refunded voucher and mints the native token if and only if the voucher is registered for this channel by then |
| TransferStack.Stack.OnTimeoutPacket | x/transfermiddleware/ibc_middleware.go:116-133 | application, then keeper, as one refund |
| TransferStack.Stack.OnAcknowledgementPacket | x/transfermiddleware/ibc_middleware.go:136-152 | an error is a refund, a success does nothing |
| TransferStack.NestedTransfer | x/transfermiddleware/keeper/ics4wrapper.go:78-93 | the nested transfer of the released voucher is not overridden again and burns what was released |
| TransferStack.NameOfOwnPathIsOverriddenAgain | x/transfermiddleware/keeper/ics4wrapper.go:104-127 | a registered name that is the path of its own voucher is overridden, and the nested transfer of its voucher is overridden again |
| TransferStack.LocksIff | x/transfermiddleware/keeper/relay.go:48-55 | lookup by asset and lookup by voucher agree, on this channel, exactly when one record joins them |
| TransferEffects.PlainSend | x/transfermiddleware/keeper/ics4wrapper.go:104-112 | a send that is not overridden destroys the sender's voucher if its path starts with this channel, else moves the tokens into escrow, and the packet names the full path; every other balance and supply stays |
| TransferEffects.OverriddenSend | x/transfermiddleware/keeper/ics4wrapper.go:25-94 | an override send destroys the sender's tokens and as many vouchers in escrow, if both and the trace are there and not otherwise; the packet has the voucher's path and the sender's amount, receiver and memo |
| TransferEffects.ReturningReceipt | x/transfermiddleware/ibc_middleware.go:95-95 | a returning token leaves escrow for the receiver in the denomination the rate limiter counts it under, if and only if the escrow holds it, and nothing else moves |
| TransferEffects.UnpairedReceipt | x/transfermiddleware/keeper/relay.go:14-84 | a token from elsewhere without a record is minted to the receiver as that voucher, and its trace is stored |
| TransferEffects.PairedReceipt | x/transfermiddleware/keeper/relay.go:48-81 | with a record for this asset and channel the voucher is minted into escrow and the native token to the receiver |
| TransferEffects.EscrowRefund | x/transfermiddleware/ibc_middleware.go:122-125 | a failed send out of escrow is paid back out of escrow, if and only if the escrow holds it |
| TransferEffects.UnpairedRefund | x/transfermiddleware/ibc_middleware.go:122-125 | a failed send of a destroyed voucher without a record mints the voucher again |
| TransferEffects.PairedRefund | x/transfermiddleware/keeper/ics4wrapper.go:189-213 | with a record on this channel it mints the native token, and the voucher into escrow |
| TransferEffects.ReturnsUnderItsNameIff | x/transfermiddleware/ibc_middleware.go:95-95 | an escrowed token that the other chain sends back arrives under its own denomination if and only if its name is not nothing but ports and channels and, for a bank denomination, does not read as a path |
| TransferEffects.OutAndBack | x/transfermiddleware/ibc_middleware.go:89-113 | then it is always paid: out and back move the amount from the sender to the receiver in the denomination in which it was sent, and change no other balance and no supply |
| Transfers.PathOfVoucher | x/transfermiddleware/keeper/relay.go:38-46 | a voucher's denomination belongs to one path only |
| Backing.TransferKeeps | x/transfermiddleware/keeper/ics4wrapper.go:54-93 | no transfer of any token, overridden or not, changes supply(N) - escrow(I) of a pair |
| Backing.ReceiveChanges | x/transfermiddleware/keeper/relay.go:48-81 | for every receiver, escrow accounts included, a receipt raises it by what it draws out of the escrow of the pair and lowers it by what it pays into that escrow, and by nothing else |
| Backing.RefundKeeps | x/transfermiddleware/keeper/ics4wrapper.go:189-213 | no refund of a sent packet changes it |
| Backing.BackingIsConserved | x/transfermiddleware/keeper/ics4wrapper.go:54-93 | over every run in which the pair is not joined to other partners, supply(N) - escrow(I) changes by exactly what was drawn out of the escrow less what was paid into it: not at all if neither happened |
| Backing.OverrideIsSolvent | x/transfermiddleware/keeper/ics4wrapper.go:54-93 | from a state in which escrow covers supply, in every run in which nobody draws on the escrow, whoever holds native tokens can send them: release and nested transfer succeed, and the packet carries the voucher's full path |
| Backing.RunTraced | x/transfermiddleware/keeper/ics4wrapper.go:54-93 | in every run a voucher in supply has a stored trace, which is what the nested transfer needs |
| Backing.NothingYet | x/transfermiddleware/keeper/ics4wrapper.go:54-93 | an empty chain meets everything the run theorems ask for, without a gap |
| Refunds.RefundUndoesSend | x/transfermiddleware/keeper/ics4wrapper.go:169-216 | a failed override send with nothing in between is undone down to every balance and supply |
| Refunds.HomewardRefund | x/transfermiddleware/keeper/ics4wrapper.go:169-216 | the refund of a voucher on its way home is always paid: in native tokens iff the pair is registered then, in vouchers iff the voucher is not registered on its channel, and whole for the two halves together iff no other name holds the voucher |
| Refunds.RefundPaysOtherName | x/transfermiddleware/keeper/ics4wrapper.go:189-213 | with the voucher registered under another name the refund pays that name and neither half |
| Refunds.FailedSendRestoresIff | x/transfermiddleware/keeper/ics4wrapper.go:169-216 | a failed send of either half, after any steps whatsoever, restores what the sender has of both together if and only if the voucher was not on its way home or no other name holds it by then |
| Refunds.FailedOverrideReturns | x/transfermiddleware/keeper/ics4wrapper.go:169-216 | after any steps whatsoever, re-pairing included, a failed override send is always refunded, in native tokens if and only if the pair is registered then |
| Refunds.TakeoverDivertsRefund | x/transfermiddleware/keeper/ics4wrapper.go:189-213 | a run in which the voucher is registered under another name while the packet is out, after which the refund restores neither half |
| TransferExamples.TakeoverRun | x/transfermiddleware/keeper/ics4wrapper.go:189-213 | such a run of five steps from an empty chain: at its end the sender holds nothing of either half and the whole amount in the other name |
| LimiterView.OverrideIsCountedAtTarget | x/ratelimit/keeper/rate_limit.go:185-193 | the packet of an override send is counted under the very path to which a limit naming the native token is put |
| LimiterView.LockedReceiptIsCountedAtTarget | x/ratelimit/keeper/rate_limit.go:185-193 | so is a receipt that is turned into the native token |
| LimiterView.RefundIsUndoneAtTarget | x/ratelimit/keeper/rate_limit.go:92-108 | and a refund into the native token is undone there |

## Left out

- App wiring, module registration, CLI, gRPC and gateway code, events, logging, telemetry, gas: no hard property.
- JSON packet decoding, bech32 and the acknowledgement encoding: packets, addresses and acknowledgements are given parsed.
- The protobuf encoding of rate limits, clocks and registry records: their stores hold values under the original keys; only the whitelist messages are modelled to the byte.
- The remaining generated messages: the same pattern, with time, duration and big-integer fields of libraries that are not part of this model.
- Overflow of 256- and 315-bit integers: unbounded integers.
- The authority check of the message servers, parameters of x/ratelimit, the relayer allow-list, custom supply queries: easy members only.
- `FundModuleAccount` and the allowed addresses of x/mint: the keeper constructor never sets its account keeper; deposits come in as credits from outside.
- IBC core, packet forwarding, hooks, wasm, alliance, staking: the stated assumptions only.
- Upgrade and fork handlers, the address migration: one-off scripts; they change minimum amounts without zeroing flows.
- TransferStack.Stack.Transfer: whether the rate limiter and the channel accept the packet is a parameter; what the rate limiter does with it is `RateLimitKeeper`.
- Imported limits off IBC channels or without a duration: the stores they fill are described, but not what the other operations do with them; the end of an hour divides by the duration.
- A refund of an escrowed token may fail when its escrow is empty: `Refunds.FailedSendRestoresIff` speaks of refunds that are paid; that a homeward one always is, is part of it.
