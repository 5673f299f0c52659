# Sketch measurement: verified model

A Dafny model of four parts of the repository, with their properties proved.

* **Reversible mangling** (`common/os_galoisField.*`, `common/os_mangler.*`).  Polynomials over GF(2)
  are natural numbers read as bit strings (`Gf2Poly.dfy`, `MachineWords.dfy`); `GaloisField.dfy`
  proves the word-level multiplication, long division and extended Euclid against them, and
  `Mangler.dfy` proves that the table lookups are field products and exactly when the reverse tables
  undo them.  `Factoring.dfy` and `FieldTable.dfy` prove which entries of the polynomial table are
  irreducible, by computing squares on bit vectors (`Bits.dfy`), and `Seeds.dfy` derives which seeds
  can be undone, among them the two that the repository defines.
* **Flow size estimation** (`common/EMFSD.h`).  `Partitions.dfy` defines the decompositions of a
  counter value, `BetaGenerator.dfy` proves that the in-place generator produces each of them once,
  in order, and `EmModel.dfy`/`EmFsd.dfy` prove that an epoch conserves packets over exact reals.
  `EmOrderings.dfy`, `EmCompositions.dfy` and `EmShares.dfy` say what the likelihoods, the normalising
  sums and the expected flow counts are, without the formulas that compute them.
* **The Elastic sketch** (`elastic/*.h`, the accumulation in `server/server.cpp`).  The classes
  `HeavyPart`, `LightPart` and `ElasticSketch` are proved against functions on values;
  `BucketVotes.dfy`, `SketchRuns.dfy`, `SketchEstimates.dfy`, `SketchBounds.dfy`, `SketchPeaks.dfy`,
  `ProcessData.dfy` and `ReportLists.dfy` prove what holds after every stream: vote accounting, mass
  bounds, no underestimation, an upper bound for every answer, the exact light counters, true and
  complete reports.  `SketchStrings.dfy` shows for
  which keys a query can answer too little, and `SketchLimits.dfy` runs at which the bounds end.
* **The connection pool** of the traffic generator (`TrafficGenerator/src`).  `ConnList.dfy` is the
  linked list and `PoolOpening.dfy` the list as main opens it; `PoolProtocol.dfy`, `PoolRuns.dfy`,
  `PoolGrowth.dfy` and `PoolFlows.dfy` interleave the dispatcher of `client.c` with its listeners.
  `IncastProtocol.dfy`/`IncastSteps.dfy` do so for one server of `incast-client.c`, exits included, one
  step for each access to a shared field; `IncastNet.dfy`, `IncastNetSteps.dfy`, `IncastRuns.dfy`,
  `IncastTotals.dfy` and `IncastFlows.dfy` for all servers and requests together.  `IncastRequests.dfy` numbers the flows of incast requests.

Conventions.  Machine words are subset types of `nat` (`Words.dfy`) and wrap where the source wraps.
Hash functions are arbitrary functions of the key.  Keys are 13-byte buffers; `strncmp` and `strncpy`
are modelled as such, and a bucket stores the copy of a key, which ends at its first zero byte.  Run
properties of the sketch are for unit insertions, as the device makes them.  Accounts that speak of
flags or of the shifted minimum are for fewer than 2^31 packets; 2^31 can set the flag bit
(`SketchLimits.LimitTight`).  The accounts are for streams of any keys.  Estimates of a key ask that
its bucket gets no key that begins with a zero byte (`SketchRuns.Clean`); for keys with a zero byte
further on, some ask that a key and its copy have the same light counter
(`SketchEstimates.SameLight`), as keys that survive a copy have.  `exp` is an arbitrary positive
function.  A loop body of the source is sometimes a method of its own.  Methods have the names of the
source's functions in Dafny's spelling.

Where the source does not do what its names suggest:

* `galoisField(n)` is a field for every n of the table but 29, whose polynomial is a multiple of
  x^2 + x + 1 (`FieldTable.FieldUnless29`, `Field.NoField29`).
* Mangling, in the field of degree 32, can be reversed exactly for seeds that the polynomial does not
  divide; the others, 0 and the polynomial itself among them, send every word to 0
  (`Seeds.CharSeedDecides`, `Seeds.ShortSeedDecides`, `Seeds.BadSeeds`).  The two seeds that the
  repository defines can be undone (`Seeds.DefinedSeedsRoundTrip`).
* A key with a zero byte is stored as its prefix.  When it is evicted its packets go to the light
  counter of the prefix, and a query for the key can answer less than its count, even 0
  (`SketchStrings.CopiedKeyLost`).
* A key that begins with a zero byte is taken for an empty slot, and its packets are overwritten
  (`SketchStrings.EmptyKeyLost`, `SketchStrings.NothingLostIff`).  In a full bucket it votes; when its
  vote evicts a key it leaves an empty slot, which the evicted key may take again with a clear flag,
  so that its packets in the light part are forgotten (`SketchStrings.EmptyKeyEvicts`,
  `SketchStrings.HoleRun`).  Whatever the hash functions, a key is safe from being underestimated
  exactly when it survives a copy and no key that may occur begins with a zero byte
  (`SketchStrings.NeverUnderestimatedIff`).
* Where plain `char` is signed, the compressed query answers less than the plain one exactly for
  compressed counters of 128 and more that enter the answer (`SketchEstimates.CompressedIff`), and
  240 packets are enough to see it (`SketchLimits.SignedAnswersLess`).
* The client can open a connection although one is idle: `available_len` is 0 as soon as as many flows
  are written and not credited as there are nodes, and a node may carry two of them
  (`PoolGrowth.IdleOverlooked`).  `PoolGrowth.WrittenWhere` says exactly when.
* Incast flow ids are not taken back when a request fails half-way.  A flow of a later request is
  recorded under the right request exactly when the ids used so far have reached that request's
  range of the table (`IncastRequests.FlowRecorded`); so after a failure the first flows of a request
  are recorded under earlier ones, and its last ones may be recorded correctly.  While connections
  can be opened no search fails (`IncastRuns.FlowsRecorded`).

## Model

| member | source | states |
|---|---|---|
| `Field.PrimTable` | common/os_galoisField.cc:11-46 | entry n of the table is a polynomial of degree exactly n |
| `Field.GaloisField.constructor` | common/os_galoisField.h:19-24 | for any n from 1 to 32 prim is the polynomial of degree n from the table; whether elements have inverses is the matter of Inv, and at n = 29, and there alone, some nonzero ones have none |
| `Field.NoField29` | common/os_galoisField.cc:11-46 | entry 29, x^29 + x + 1, is a multiple of x^2 + x + 1, so the nonzero reduced element 7 has no inverse in the field of degree 29 |
| `Field.GaloisField.Mul` | common/os_galoisField.h:44-58 | for a first operand below 2^n and any 64-bit second one the loop returns their polynomial product reduced by prim, itself below 2^n; a first operand that is not reduced comes back as it is from a product by 1 |
| `Field.MulModComm` | common/os_galoisField.h:43-58 | the field product is commutative |
| `Field.MulModAssoc` | common/os_galoisField.h:43-58 | the field product is associative |
| `Field.MulModXor` | common/os_galoisField.h:31-58 | the field product distributes over xor on both sides |
| `Field.MulModRem` | common/os_galoisField.h:43-58 | an unreduced operand gives the same product as its remainder |
| `Field.MulStep` | common/os_galoisField.h:50-56 | one turn of the loop keeps r plus p times the remaining bits congruent to the product, with r and p reduced |
| `Field.GaloisField.LongDiv` | common/os_galoisField.cc:48-70 | q and r are the one pair with a = b*q xor r and degree of r below that of b, for all a and nonzero b below 2^63 |
| `Field.DivIteration` | common/os_galoisField.cc:61-69 | one turn of long division keeps a = b * (q shifted) xor r and lowers the degree bound of r |
| `Field.GaloisField.Div` | common/os_galoisField.h:61-66 | the quotient belongs to the remainder |
| `Field.GaloisField.Mod` | common/os_galoisField.h:69-74 | the remainder of polynomial division |
| `Field.GaloisField.ExtendedEuclid` | common/os_galoisField.cc:72-89 | terminates; g is a greatest common divisor, u and v stay below 2^n, and u*a + v*b is g in the field |
| `Field.BezoutStep` | common/os_galoisField.cc:80-86 | one division step carries the cofactors of two remainders to the next |
| `Field.GcdStep` | common/os_galoisField.cc:80-86 | a division step keeps exactly the common divisors |
| `Field.GaloisField.Inv` | common/os_galoisField.h:78-85 | for any a below 2^63, reduced or not, the result is below 2^n and is an inverse of a exactly when a is coprime to prim |
| `Field.InverseMeansCoprime` | common/os_galoisField.h:77-85 | whatever has an inverse is coprime to prim |
| `Factoring.SquaresDecide` | common/os_galoisField.cc:11-46 | the criterion used for the table: when squaring modulo p fixes only 0 and 1 and sends only 0 to 0, p is irreducible |
| `Factoring.FieldIff` | common/os_galoisField.h:77-85 | every nonzero reduced element has an inverse if and only if the polynomial is irreducible |
| `FieldTable.IrreducibleIff` | common/os_galoisField.cc:11-46 | of the entries of degree 1 to 32 exactly the one of degree 29 is reducible |
| `FieldTable.FieldUnless29` | common/os_galoisField.h:19-24 | so for n from 1 to 32 the construction gives a field if and only if n is not 29 |
| `FieldTable.InvertibleIff` | common/os_galoisField.h:77-85 | and in a field of the table any word, reduced or not, has an inverse if and only if its remainder is not 0 |
| `Mangling.Mangler.constructor` | common/os_mangler.h:17-25 | for any two seeds below 2^63 all twelve tables hold the products they should |
| `Mangling.Mangler.InitCharTable` | common/os_mangler.cc:9-29 | the eight char tables hold shifted products by seed1 and by its Inv |
| `Mangling.Mangler.InitShortTable` | common/os_mangler.cc:31-46 | the four short tables hold shifted products by seed2 and by its Inv |
| `Mangling.ProductByBytes` | common/os_mangler.cc:17-28 | multiplying a 32-bit word is the xor of the products of its four shifted bytes |
| `Mangling.ProductByShorts` | common/os_mangler.cc:39-45 | the same for its two shifted shorts |
| `Mangling.Mangler.MangleCharTable` | common/os_mangler.h:32-42 | four lookups give the field product of the word and seed1, for every word |
| `Mangling.Mangler.MangleShortTable` | common/os_mangler.h:45-53 | two lookups give the field product of the word and seed2 |
| `Mangling.Mangler.ReverseCharTable` | common/os_mangler.h:56-66 | four lookups give the product of the word and the Inv of seed1 |
| `Mangling.Mangler.ReverseShortTable` | common/os_mangler.h:69-77 | two lookups give the product of the word and the Inv of seed2 |
| `Mangling.UndoProduct` | common/os_mangler.h:55-77 | multiplying by an element and by its inverse, in either order, gives back every reduced word |
| `Mangling.CommonFactorCollides` | common/os_mangler.h:31-53 | a seed with a common factor sends some nonzero word to zero |
| `Mangling.Mangler.CharRoundTrip` | common/os_mangler.h:32-66 | Reverse undoes Mangle, and Mangle undoes Reverse, on every 32-bit word if and only if seed1 is coprime to the field polynomial |
| `Mangling.Mangler.ShortRoundTrip` | common/os_mangler.h:45-77 | the same for the short tables and seed2 |
| `Mangling.Mangler.MangleOneToOne` | common/os_mangler.h:32-53 | mangling is one to one if and only if the seed is coprime |
| `Seeds.CharSeedDecides` | common/os_mangler.h:32-66 | in the field of degree 32 the char tables undo each other on every word if and only if the polynomial does not divide the first seed; if it does, and only then, every word is sent to 0 |
| `Seeds.ShortSeedDecides` | common/os_mangler.h:45-77 | the same for the short tables and the second seed |
| `Seeds.BadSeeds` | common/os_mangler.h:32-53 | the seeds 0 and primTable[32] make the words 1 and 2 collide, by either table |
| `Seeds.FirstSeedCoprime` | common/common.h:94 | the polynomial of degree 32 does not divide the first seed the repository defines, and shares no factor with it |
| `Seeds.SecondSeedCoprime` | common/common.h:94 | nor the second |
| `Seeds.DefinedSeedsRoundTrip` | common/os_mangler.h:32-77 | so a mangler built from the two defined seeds reverses and mangles back every 32-bit word, by either pair of tables |
| `BetaEnumeration.EnumerationExact` | common/EMFSD.h:72-104 | the enumeration holds exactly the nondecreasing positive sequences with the given sum and fewer parts than the limit, each once, by length and then lexicographically |
| `BetaEnumeration.MostParts` | common/EMFSD.h:32-49 | the largest number of parts that is enumerated is 6 for values up to 50, 4 up to 300, 3 up to 600 and 2 above, or the value itself if that is less |
| `BetaEnumeration.BetaGenerator.constructor` | common/EMFSD.h:32-49 | a generator of any positive value starts before its enumeration, with the limit for its range |
| `BetaEnumeration.BetaGenerator.GetNewComb` | common/EMFSD.h:51-70 | yields the least decomposition of the same length above the stored prefix, and false only when there is none |
| `BetaEnumeration.BetaGenerator.GetNext` | common/EMFSD.h:72-104 | the i-th call yields the i-th decomposition of the enumeration; false exactly after the last |
| `BetaEnumeration.BetaGenerator.DefaultCase` | common/EMFSD.h:85-100 | one turn of the loop yields the next decomposition or moves to one more part having missed none |
| `BetaEnumeration.SuccessorIsLeast` | common/EMFSD.h:53-67 | when all later positions fail, the accepted position gives the least decomposition above |
| `BetaEnumeration.SuccessorIsPartition` | common/EMFSD.h:53-67 | the accepted sequence is nondecreasing, positive, sums to the value and is strictly above |
| `BetaEnumeration.LeastIsNext` | common/EMFSD.h:72-104 | the least decomposition above a reached prefix is the next one of the enumeration |
| `Partitions.PartsExact` | common/EMFSD.h:72-104 | the recursive listing holds exactly the decompositions into m parts of at least lo |
| `Partitions.PartsOrdered` | common/EMFSD.h:72-104 | and is in lexicographic order |
| `Partitions.AllPartsExact` | common/EMFSD.h:72-104 | up to m parts, exactly the decompositions |
| `Partitions.AllPartsDistinct` | common/EMFSD.h:72-104 | no decomposition is listed twice |
| `EmEstimation.EMFSD.CollectCounters` | common/EMFSD.h:131-149 | returns the largest counter and counts every value |
| `EmEstimation.EMFSD.SetCounters` | common/EMFSD.h:182-196 | the histogram counts the counters up to the largest and carries exactly their sum; the first flow count is the number of nonzero counters, and every size from 1 has the share of them that hold it |
| `EmEstimation.CountedCounters` | common/EMFSD.h:131-149 | a histogram covering all counters has their sum as mass, and a nonzero counter makes the first divisor positive |
| `EmEstimation.EMFSD.GetPFromBeta` | common/EMFSD.h:113-129 | the product over the distinct parts, in whatever order the hash map visits them, is the likelihood of the decomposition |
| `EmOrderings.LikelihoodMeaning` | common/EMFSD.h:113-129 | the likelihood of a decomposition, times the factorial of its number of parts, is exp(-lambda) times the sum over its distinct orderings of the products of n * dist[part] / w |
| `EmOrderings.OrderingsExact` | common/EMFSD.h:113-129 | those orderings are exactly the sequences with the same numbers, each listed once |
| `EmOrderings.FactorialCounts` | common/EMFSD.h:107-111 | the factorial of n is the number of orderings of n different numbers |
| `EmCompositions.LevelMeaning` | common/EMFSD.h:226-231 | the likelihoods of all decompositions of a value into m parts, times the factorial of m, are exp(-lambda) times the products over all sequences of m flow sizes that add up to the value |
| `EmCompositions.EvidenceMeaning` | common/EMFSD.h:226-231 | so sum_p is exp(-lambda) times the sum, over the numbers m of flows below the limit, of these products divided by the factorial of m |
| `EmCompositions.CompositionsExact` | common/EMFSD.h:226-231 | the sequences summed over are exactly those of m positive numbers with the given sum |
| `EmShares.ExpectedAt` | common/EMFSD.h:219-238 | an epoch computes for each flow size the sum, over the counters, of the mean number of parts of that size among the decompositions of the counter, weighed by their likelihoods |
| `EmShares.EpochMeaning` | common/EMFSD.h:213-253 | the next estimate: the expected flows of each size, the same whatever exp(-lambda) is, their total as n, and the share of each size in it |
| `EmEstimation.EMFSD.Normaliser` | common/EMFSD.h:227-231 | the first enumeration sums the likelihoods of all decompositions of the value |
| `EmEstimation.EMFSD.Distribute` | common/EMFSD.h:232-237 | the second enumeration gives every decomposition its share |
| `EmEstimation.EMFSD.ShareAll` | common/EMFSD.h:219-238 | the loop over counter values computes the expected flow counts |
| `EmEstimation.EMFSD.NextEpoch` | common/EMFSD.h:213-253 | an epoch keeps the estimator valid, the sum of v*ns[v] equals the sum of v*counter_dist[v], n_sum lies between the nonzero counters and the packets, and dist_new sums to 1 |
| `EmModel.PositiveEvidence` | common/EMFSD.h:226-231 | sum_p is positive for every counter value that occurs, so no division by zero |
| `EmModel.SharesSum` | common/EMFSD.h:232-237 | the shares of a value add up to its number of counters |
| `EmModel.ExpectedMass` | common/EMFSD.h:219-238 | the expected flow counts carry exactly the packets of the counters |
| `EmModel.ExpectedSign` | common/EMFSD.h:219-238 | they are nonnegative, and positive wherever a counter had the value |
| `EmModel.ExpectedFlows` | common/EMFSD.h:240-244 | they count at least one flow for each nonzero counter |
| `EmModel.EpochKeeps` | common/EMFSD.h:213-253 | all properties of one epoch together |
| `EmModel.EpochsConserve` | elastic/LightPart.h:134-143 | any number of epochs conserves packets, stays normalised and stays positive wherever a counter occurs |
| `Keys.SameStringIsSameCopy` | elastic/HeavyPart.h:38-43 | strncmp is 0 exactly when strncpy makes the same bytes |
| `Keys.StoredKeys` | elastic/HeavyPart.h:38-65 | strncmp finds a stored key exactly when it is the copy of the key looked for, for every key that is not the empty string |
| `Keys.ProperKeys` | elastic/HeavyPart.h:38-44 | on keys that survive a copy and are not empty, strncmp is equality and never matches the empty key |
| `HeavySketch.HeavyPart.Scan` | elastic/HeavyPart.h:33-50 | the loop finds the first match; when there is none, the first empty slot and the first least counter |
| `HeavySketch.HeavyPart.Insert` | elastic/HeavyPart.h:28-86 | match, empty, vote and swap as specified on the bucket of the key, every other bucket unchanged |
| `HeavySketch.HeavyPart.Query` | elastic/HeavyPart.h:89-98 | the stored value of the matching slot or 0 |
| `HeavySketch.HeavyPart.Clear` | elastic/HeavyPart.h:22-25 | every bucket is empty |
| `BucketVotes.MatchStep` | elastic/HeavyPart.h:52-57 | a key whose copy is resident gains one packet, its flag and the guard stay |
| `BucketVotes.RoomStep` | elastic/HeavyPart.h:59-65 | the copy of a new key takes an empty slot with one packet and a clear flag |
| `BucketVotes.VoteStep` | elastic/HeavyPart.h:67-75 | below eight times the least count the guard gains one vote and the residents stay |
| `BucketVotes.SwapStep` | elastic/HeavyPart.h:76-86 | an eviction happens with the guard at exactly eight times the count carried out, and leaves the copy of the new key flagged with one packet |
| `BucketVotes.AnyInsertion` | elastic/HeavyPart.h:28-86 | in any bucket whose guard is at most eight times the least count, and 0 while a slot is free, a unit insertion of any key keeps that bound and moves packets and votes as one of the cases allows, the packets in a slot that a new key takes being lost |
| `BucketVotes.WeightIsRepeated` | elastic/HeavyPart.h:52-86 | a weight of f for a key that is resident or finds a free slot does what f unit insertions do, and in a full bucket any weight is one vote |
| `SketchRuns.InsertVotes` | elastic/HeavyPart.h:28-86 | every unit insertion of a key that is not the empty string keeps a bucket sound and moves packets and votes as one of the four cases allows |
| `SketchRuns.VoteAccounting` | elastic/HeavyPart.h:35-85 | after every run, rejected = 8 * carried out + guard and arrived = resident + 9 * carried out + guard, in every bucket that gets no key beginning with a zero byte |
| `SketchRuns.AnyAccounting` | elastic/HeavyPart.h:35-85 | and in every bucket, whatever the keys, rejected = 8 * carried out + guard and arrived = resident + 9 * carried out + guard + overwritten |
| `SketchRuns.CarriedAtMostNinth` | elastic/Param.h:36-40 | whatever the keys, evictions carry out at most a ninth of a bucket's packets and the guard never exceeds eight times the least resident count |
| `SketchRuns.MassBound` | elastic/ElasticSketch.h:25-50 | when no key begins with a zero byte, every packet is resident or was sent to the light part, and the counters hold at most what was sent |
| `SketchRuns.MassConserved` | elastic/ElasticSketch.h:25-50 | whatever the keys, the packets that are resident, sent to the light part and overwritten add up to the packets of the stream |
| `SketchRuns.MassAtMost` | elastic/ElasticSketch.h:25-50 | for every stream of any keys and any length, resident and sent packets are at most those of the stream, and the counters hold at most what was sent |
| `SketchRuns.Capture` | device/device.cpp:271-292 | a stream of unit insertions into a cleared sketch leaves it in the state the run properties speak of, histogram included |
| `LightSketch.LightPart.Insert` | elastic/LightPart.h:37-50 | the counter gains f up to 255 and the histogram still agrees with a recount |
| `LightSketch.LightPart.SwapInsert` | elastic/LightPart.h:52-67 | the counter is raised to f up to 255 and the histogram still agrees |
| `LightSketch.LightPart.Clear` | elastic/LightPart.h:30-34 | all counters are zero and the histogram agrees |
| `LightSketch.LightPart.Query` | elastic/LightPart.h:70-76 | the counter of the key |
| `LightSketch.CountMove` | elastic/LightPart.h:37-67 | moving one unit of mice_dist from the old to the new value matches a recount of the changed counters |
| `LightSketch.RecountedMass` | server/server.cpp:385-391 | mice_dist, weighted, is the sum of the counters |
| `LightSketch.CollectedAgrees` | elastic/LightPart.h:30-67 | mice_dist equals the histogram collect_counters makes, is 0 above it, and entry 0 is less by the number of counters |
| `LightSketch.LightPart.Compress` | elastic/LightPart.h:79-90 | stores exactly the maximum of each residue class, whether or not the width divides the number of counters, and nothing beyond |
| `LightSketch.ResidueIsModulo` | elastic/LightPart.h:86-87 | stepping by the width visits exactly one residue class |
| `LightSketch.CompressedCovers` | elastic/LightPart.h:92-98 | a compressed counter is at least every counter mapped to it |
| `LightSketch.LightPart.QueryCompressedPart` | elastic/LightPart.h:92-98 | reads the compressed counter of the key's residue class |
| `LightSketch.LightPart.GetDistribution` | elastic/LightPart.h:124-151 | the flow counts are those after ten epochs from the first estimate of the counters, as many as the largest counter and one more; before truncation they carry exactly the sum of the counters, after it at most that |
| `ElasticModel.ElasticSketch.Insert` | elastic/ElasticSketch.h:25-50 | heavy outcome and light update together, as one function of the state before |
| `SketchPeaks.CounterAfter` | elastic/ElasticSketch.h:25-50 | an eviction of a key with a clear flag leaves all counters when its light counter is at least its count, and else makes that counter the lesser of the count and 255; a flagged one adds its count and a rejected packet adds one, up to 255; nothing else changes a counter |
| `SketchPeaks.CounterIsGreatest` | elastic/ElasticSketch.h:25-50 | after every run a light counter is the greatest, up to 255, of all that was added to it and of each unflagged evicted count with what was added since |
| `SketchPeaks.RaisesDoNotAddUp` | elastic/LightPart.h:52-67 | so unflagged evictions do not accumulate: a counter exceeds what was added to it by at most the largest unflagged count evicted to it |
| `SketchPeaks.SixteenPackets` | elastic/ElasticSketch.h:40 | a key, six others and nine packets of an eighth, all with one light counter, leave the counter and the answer for the first key at 8 |
| `ElasticModel.ElasticSketch.Query` | elastic/ElasticSketch.h:52-61 | combines the stored value and the light counter |
| `ElasticModel.ElasticSketch.QueryCompressedPart` | elastic/ElasticSketch.h:63-72 | the same with the compressed counter |
| `ElasticModel.ElasticSketch.Clear` | elastic/ElasticSketch.h:19-23 | both parts are empty |
| `SketchEstimates.StepKnows` | elastic/ElasticSketch.h:25-50 | one insertion of any key keeps what is known of any key, be it inserted, taken for it, evicted, a neighbour or elsewhere |
| `SketchEstimates.RunKnows` | elastic/ElasticSketch.h:25-50 | after every run, for a key whose copy has the same light counter and whose bucket gets no key beginning with a zero byte: an unflagged resident counts exactly the packets of its string in its bucket, a flagged or absent key has those that were heard between the two parts unless saturated, a bucket with room has sent nothing |
| `SketchEstimates.NeverUnderestimates` | elastic/ElasticSketch.h:52-61 | a query for such a key answers at least the packets heard of it, hence its true count, unless the light counter is 255; and for a resident with a clear flag exactly the packets of its string in its bucket |
| `SketchEstimates.ProperCounts` | elastic/HeavyPart.h:38-43 | on streams of keys that survive a copy the packets heard, the packets of the string and the true count are one number |
| `SketchEstimates.HeavyExact` | elastic/HeavyPart.h:52-65 | for every key whose bucket gets no key beginning with a zero byte, whatever the light hash: while its bucket has room its stored value, and while it is resident with a clear flag the answer, is the number of packets of its string in its bucket |
| `SketchEstimates.CompressedIff` | elastic/ElasticSketch.h:63-72 | in any state and for any key the compressed query answers at least the plain one if and only if no byte that reads as negative enters the answer |
| `SketchEstimates.CompressedAnswer` | elastic/ElasticSketch.h:63-72 | so after a run it keeps the guarantee of the plain query, with that one exception, in which it answers less |
| `SketchBounds.PositionBound` | elastic/ElasticSketch.h:25-50 | after every stream of any keys and any length, for every light counter: the counts of the resident copies that hash to it and the counter itself are together at most the packets whose key, or whose copy, hashes to it |
| `SketchBounds.AnswerBound` | elastic/ElasticSketch.h:52-61 | so after every stream a query for a key whose copy has the same light counter answers at most those packets of its counter |
| `SketchBounds.ExactAlone` | elastic/ElasticSketch.h:52-61 | and, for such a key whose bucket gets no key beginning with a zero byte, exactly its true count when no other key of the stream, nor the copy of one, hashes to the counter and the counter is below 255 |
| `SketchLimits.LimitTight` | elastic/Param.h:36-44 | 2^31 packets of any one key make the query for it answer 0: one packet fewer is the most the guarantee allows |
| `SketchLimits.SignedAnswersLess` | elastic/ElasticSketch.h:63-72 | a run of 240 packets after which the plain query answers 128 for a key and the compressed one, with signed char, -128 |
| `SketchStrings.NeverUnderestimatedIff` | elastic/ElasticSketch.h:25-61 | for any keys k and e: k is never underestimated, whatever the hash functions, the sizes and the stream of k, e and keys that do not begin with a zero byte, if and only if k survives a string copy and neither k nor e begins with a zero byte |
| `SketchStrings.HoleRun` | elastic/HeavyPart.h:59-86 | for every k that survives a copy and every e that begins with a zero byte, a run of 17 packets after which the query for k answers 1, its light counter being 1, although it occurred twice |
| `SketchStrings.NothingLostIff` | elastic/HeavyPart.h:38-65 | in every stream of a key and others that do not begin with a zero byte each packet is resident or was sent to the light part, whatever the hash functions and sizes, if and only if the key does not begin with a zero byte |
| `SketchStrings.CopiedKeyLost` | elastic/HeavyPart.h:76-86 | for every key that does not begin with a zero byte and is altered by a copy, a run after which a query for it answers 0 with an unsaturated counter although it occurred |
| `SketchStrings.EmptyKeyLost` | elastic/HeavyPart.h:38-65 | in any bucket with room, a packet of a key that begins with a zero byte leaves all stored keys as they were, is counted in an empty slot, and the next new key makes the bucket what it would be had that packet never arrived |
| `SketchStrings.EmptyKeyEvicts` | elastic/HeavyPart.h:67-86 | in a full bucket such a key votes, or evicts the least resident and leaves its slot empty, flagged and with one packet; the next new key, also the evicted one, takes that slot with a clear flag |
| `ProcessingModel.ProcessData` | server/server.cpp:385-431 | one sketch adds exactly its counters plus its resident counts to tot, in spite of subtracting and adding back, and reports its occupied slots in order |
| `ProcessingModel.ProcessSlot` | server/server.cpp:394-430 | one slot changes tot by exactly its count |
| `ReportLists.PlacesOf` | server/server.cpp:394-430 | every slot with a value is reported exactly once, in the order of buckets and slots, with its key, its flag and its count, to which a flagged one adds the light counter of its key |
| `ReportLists.ReportsAddUp` | server/server.cpp:394-430 | after fewer than 2^31 packets of any keys there are as many reports as slots with a count, and their values add up to the resident packets and the light counters of the flagged keys |
| `ReportLists.BucketKeysDiffer` | server/server.cpp:394-430 | reports that come from one bucket which gets no key beginning with a zero byte have different keys |
| `ReportLists.KeysDiffer` | server/server.cpp:394-430 | and when every key of the stream survives a copy, no two reports have the same key |
| `ProcessingModel.TotalWithinPackets` | server/server.cpp:385-431 | after fewer than 2^31 packets of any keys this contribution is at most the number of packets, and no value wraps |
| `ProcessingModel.BucketReportsTrue` | server/server.cpp:394-430 | after every run a report of a bucket that gets no key beginning with a zero byte is true of a resident key of the stream, as described in the next row |
| `ProcessingModel.ReportsTrue` | server/server.cpp:394-430 | when no key of the stream begins with a zero byte, every report is of a resident key of the stream, under its copy; without the swap flag its value is exactly the packets of its string in its bucket; where the copy has the key's light counter it is the answer to a query for the key, and at least what was heard of it unless saturated; where the copy has the key's bucket it is the answer to a query for the copy |
| `ProcessingModel.ResidentsReported` | server/server.cpp:394-430 | every resident flow of a bucket that gets no key beginning with a zero byte is reported, under the copy of its key and with its swap flag, with the same values |
| `Connections.ConnList.Link` | TrafficGenerator/src/common/conn.c:109-124 | a node is appended behind the tail and counted, the chain staying without cycles |
| `Connections.ConnList.InsertConnList` | TrafficGenerator/src/common/conn.c:93-128 | links as many idle nodes as asked for or as can be connected, none for a negative count, and reports which |
| `Connections.ConnList.SearchConnList` | TrafficGenerator/src/common/conn.c:131-150 | the first idle node in list order, none when available_len is 0 |
| `Connections.ConnList.SearchNConnList` | TrafficGenerator/src/common/conn.c:153-190 | succeeds exactly when num is not 0, available_len allows it and that many nodes are idle; then hands out the first num idle nodes in list order |
| `Connections.ResultDistinct` | TrafficGenerator/src/common/conn.c:153-190 | what it hands out are idle nodes of the list, no two the same |
| `PoolProtocol.NextOk` | TrafficGenerator/src/client/client.c:611-770 | every step of the dispatcher and of any listener keeps the invariant of the pool |
| `PoolProtocol.ReachableOk` | TrafficGenerator/src/client/client.c:611-770 | so every interleaving does |
| `PoolProtocol.StartOk` | TrafficGenerator/src/client/client.c:124-155 | the pool as opened satisfies it |
| `PoolOpening.OpenPool` | TrafficGenerator/src/client/client.c:124-155 | the list that InsertConnList builds, seen as protocol nodes with their listeners started, is the state from which both protocols set out |
| `PoolProtocol.ListenCounts` | TrafficGenerator/src/client/client.c:632-641 | the locked update adds one to available_len and flow_finished exactly when it settles a data flow |
| `PoolProtocol.PositiveFinds` | TrafficGenerator/src/common/conn.c:131-150 | a positive available_len means that some node is idle |
| `PoolGrowth.GrowsWhenFull` | TrafficGenerator/src/client/client.c:690-703 | in every run a node is appended only for a request that read an available_len of 0, which is with as many pending flows as nodes and as many idle nodes as flows received and not credited |
| `PoolGrowth.WrittenWhere` | TrafficGenerator/src/client/client.c:685-735 | a request is written to a node that was in the list when its count was read if and only if more nodes were idle than flows received and not credited; otherwise to the one node added for it |
| `PoolGrowth.IdleIsUsed` | TrafficGenerator/src/client/client.c:690-703 | so when no flow waits to be credited and a node is idle, the list does not grow |
| `PoolGrowth.IdleOverlooked` | TrafficGenerator/src/common/conn.c:131-150 | a schedule in which a request reads a count of 0 and opens a third connection while the second is idle |
| `PoolGrowth.ListBound` | TrafficGenerator/src/client/client.c:690-703 | the list is as long as it was opened, or one longer than the flows pending at some moment of the run |
| `PoolGrowth.EnoughNodes` | TrafficGenerator/src/client/client.c:690-703 | so it does not grow while it always has more nodes than flows pending |
| `PoolFlows.EachFlowOnce` | TrafficGenerator/src/client/client.c:611-735 | in every run each request, once its turn has come, has gone to another server or been begun here; one begun here is at hand or was written, and one written is on a connection or was received, each exactly once under its own id; at the end exactly the requests begun here have been received |
| `PoolRuns.Safe` | TrafficGenerator/src/client/client.c:611-735 | in every reachable state: available_len is the idle nodes less listeners between clearing busy and incrementing plus the send between setting busy and decrementing, less a node linked and not yet counted; at most one unfinished flow per connection; dispatched = finished + pending |
| `PoolRuns.AvailableMeaning` | TrafficGenerator/src/client/client.c:685-735 | the reading of available_len, from the invariant |
| `PoolRuns.SearchNeverMisses` | TrafficGenerator/src/common/conn.c:131-150 | a search begun on a positive count reaches an idle node although listeners run |
| `PoolRuns.QuiescentSettled` | TrafficGenerator/src/client/client.c:738-789 | once every listener has handled its id 0, available_len is 0 and flow_finished is the number of flows dispatched, with nothing left unread |
| `PoolRuns.StepProgress` | TrafficGenerator/src/client/client.c:611-770 | every step of every thread brings a well-founded measure down |
| `PoolRuns.NeverStuck` | TrafficGenerator/src/client/client.c:611-770 | short of the end some thread can always move |
| `PoolRuns.EveryScheduleEnds` | TrafficGenerator/src/client/client.c:658-789 | under any scheduler, even one that decides from the whole past, the run ends with all requests begun, available_len 0 and flow_finished equal to the flows dispatched |
| `IncastSteps.TakeOk` | TrafficGenerator/src/client/incast-client.c:731-980 | every step of the planner, of the run_flow threads, of the exits and of the listeners at one server keeps the invariant |
| `IncastSteps.RunsOk` | TrafficGenerator/src/client/incast-client.c:731-980 | so every interleaving does |
| `IncastSteps.SearchSucceeds` | TrafficGenerator/src/client/incast-client.c:839-893 | after the top-up the search passes its count check, never reaches the end of the list, and hands out one connection per flow, all distinct and idle, while listeners run |
| `IncastSteps.ShortfallIsMissing` | TrafficGenerator/src/client/incast-client.c:839-845 | the unsigned difference, taken as a loop bound, is the number of missing connections and 0 when none is, for sizes below 2^31 |
| `IncastSteps.TopUpExact` | TrafficGenerator/src/client/incast-client.c:839-860 | when the search begins, the list has grown by exactly the connections that were missing when available_len was last read, none when there were enough |
| `IncastProtocol.IdleCovers` | TrafficGenerator/src/common/conn.c:153-190 | with no node claimed, at least nodes less pending flows are idle |
| `IncastSteps.FlowsAccounted` | TrafficGenerator/src/client/incast-client.c:910-935 | in every reachable state flows written are finished or pending and no connection carries two, nor one while a thread has claimed it |
| `IncastNetSteps.MovedOk` | TrafficGenerator/src/client/incast-client.c:731-980 | every step of the main thread through requests and servers, of every run_flow thread and of every listener keeps the invariant of the whole client |
| `IncastNetSteps.SendsFresh` | TrafficGenerator/src/client/incast-client.c:871-935 | no flow id is written to a connection twice |
| `IncastNetSteps.AllIdsSent` | TrafficGenerator/src/client/incast-client.c:871-901 | when the threads of a request have written, exactly the ids of this request and of those before it have been sent |
| `IncastRuns.FlowsRecorded` | TrafficGenerator/src/client/incast-client.c:704-708 | in every interleaving over all servers no search fails, and every data flow on a connection or being received carries an id whose entry of flow_req_id is the request that sent it |
| `IncastRuns.DoneSettled` | TrafficGenerator/src/client/incast-client.c:938-980 | after the exits every id of the table has been sent; at every server available_len is 0, flow_finished is the number of flows dispatched, nothing is left unread and no connection is open |
| `IncastTotals.AllFlowsFinished` | TrafficGenerator/src/client/incast-client.c:680-711 | at the end of every run flow_finished and the flows dispatched at a server are exactly the flows the requests ask of it, and over all servers these are as many as the entries of flow_req_id |
| `IncastFlows.EachIdOnce` | TrafficGenerator/src/client/incast-client.c:731-980 | over all servers and every run, a flow id that was sent is on a connection or was received, exactly once, and no other is; at the end exactly the ids of the table have been received, each once |
| `IncastRuns.MoveProgress` | TrafficGenerator/src/client/incast-client.c:731-980 | every step of every thread brings a well-founded measure down |
| `IncastRuns.NeverStuck` | TrafficGenerator/src/client/incast-client.c:731-980 | short of the end some thread can always move |
| `IncastRuns.EveryScheduleEnds` | TrafficGenerator/src/client/incast-client.c:797-980 | under any scheduler, even one that decides from the whole past, the run ends with all requests served and everything settled |
| `IncastRequests.AssignRequests` | TrafficGenerator/src/client/incast-client.c:704-711 | fills the table with every request id repeated by its fanout, ending at flow_total_num |
| `IncastRequests.FlowReqAt` | TrafficGenerator/src/client/incast-client.c:704-708 | the entries between the prefix sums of the fanouts before and after a request are that request |
| `IncastRequests.FlowReqRange` | TrafficGenerator/src/client/incast-client.c:704-708 | and no others are |
| `IncastRequests.DrawServers` | TrafficGenerator/src/client/incast-client.c:684-690 | the per-server counts are the histogram of the draws, and the server totals grow by them |
| `Histograms.HistogramTotal` | TrafficGenerator/src/client/incast-client.c:684-690 | a histogram that covers all draws adds up to their number: the counts of a request to its fanout |
| `IncastRequests.IncastClient.RunIncastRequest` | TrafficGenerator/src/client/incast-client.c:831-901 | ready exactly when every search succeeds, then with its fanout filled exactly; global_flow_id grows by the ids used, also when it gives up |
| `IncastRequests.FlowsAre` | TrafficGenerator/src/client/incast-client.c:871-885 | the flows prepared are as many as the counts say and carry consecutive ids |
| `IncastRequests.FlowAt` | TrafficGenerator/src/client/incast-client.c:871-885 | the k-th flow for a server goes to the k-th connection its search handed out |
| `IncastRequests.AssignedAll` | TrafficGenerator/src/client/incast-client.c:871-901 | a request uses up its whole fanout of ids exactly when it is complete |
| `IncastRequests.FlowRecorded` | TrafficGenerator/src/client/incast-client.c:704-708 | flow j of a complete request is recorded as that request's, flow_req_id[id-1] = request, if and only if the ids used before the request plus j reach the request's range of the table; otherwise as an earlier one's |
| `IncastRequests.IdsMatch` | TrafficGenerator/src/client/incast-client.c:704-708 | so all flows of a complete request are recorded as its own if and only if every earlier request was complete |
| `IncastRequests.AllIdsMatch` | TrafficGenerator/src/client/incast-client.c:704-708 | and in a run without failed searches all flows are, and the ids used are exactly the table |
| `IncastRequests.FailureMisdirects` | TrafficGenerator/src/client/incast-client.c:881-892 | a failed search followed by a request of one flow: the table says the first request of that flow |

## Left out

- Words of 2^63 and above as operands of `LongDiv`, and so as seeds: they make it shift by 64.
- `Add` and `Sub` of the field and the two test routines: a single xor, and printing.
- `BOBHash32` and `common/hash_functions.h`: the hash functions are arbitrary.
- `common/cuckoo_hashing.h`, `KAry`, cardinality, entropy and bandwidth formulas, random draws from a distribution: logarithms, floating point, or no use in the modelled parts.
- `ElasticSketch::get_entropy` and `ElasticSketch::get_distribution`: they compare into an uninitialised key where a copy is needed; `process_data` is modelled instead.
- `ElasticSketch::get_heavy_hitters`: a filter on queries of resident keys.
- Rounding: the estimator is modelled over exact reals with `exp` positive; the 16-bit overload of `set_counters` and its logarithmic cardinality are not modelled.
- `SketchEstimates.NeverUnderestimates`: for unit insertions and fewer than 2^31 packets, the most it holds for (`SketchLimits.LimitTight`); with other weights the vote and swap branches of the source ignore the weight (`BucketVotes.WeightIsRepeated`).  A key in whose bucket some key begins with a zero byte can be underestimated (`SketchStrings.NeverUnderestimatedIff`) and is left out.
- `ProcessingModel.ProcessData`: the entropy terms, the flow distribution, the cardinality and the locks are left out.
- `Connections.ConnList.InsertConnList`: sockets are reduced to how many connects succeed; the lock is not modelled in the list, since the protocol modules interleave its accesses.
- `PoolProtocol.NextOk`: connections do not fail, replies arrive in order, memory is sequentially consistent, the number of nodes stays below 2^32; the timed join of `wait_conn_list`, request times, sizes and rates are left out; requests to other servers are steps that leave this list alone.
- `IncastSteps.SearchSucceeds`: the same assumptions, with nodes and flows still to come below 2^31 at each server and at least one connection opened to each.
- `IncastNetSteps.MovedOk`: the run_flow threads of a request are started and joined in one step each, since a thread that has not run is as good as not started; the main thread takes the servers in order; sleeps between requests are left out.
- `IncastRequests.IncastClient.RunIncastRequest`: allocation failures and flow sizes are left out, and the searches' results are parameters, since failing searches are its subject; the flow total is not reduced modulo 2^32.  `IncastRuns.FlowsRecorded` derives them from the protocol.
- Sockets, packet capture, JSON, HTTP, argument and configuration parsing, device and server threads: input and output.
