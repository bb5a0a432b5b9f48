# A Dafny model of RustyVault's core

RustyVault keeps secrets behind an encrypted barrier. This project models the four parts of
it that carry its guarantees, and proves what they promise:

1. **Secret sharing** (`Gf256Tables`, `Gf256`, `Polynomials`, `Interpolation`, `Shamir`). The
   table-driven field arithmetic is the field of section 4.2 of FIPS 197; from that, evaluation
   is a homomorphism, interpolation exists and is unique, any threshold of shares recovers the
   secret, and fewer say nothing about it.
2. **Seal, unseal and the barrier** (`Platform`, `Barrier`, `SealMachine`). The encrypting barrier
   is a plain map to its clients over any number of seal cycles; the seal machine is safe in every
   run; what `init` hands out opens the vault again, for exactly the usable configurations, also after
   refused attempts.
3. **Tokens and leases** (`Lease`, `Forest`, `TokenStore`, `TokenRuns`, `StorageKeys`). Recursive
   revocation, its interruption and its rerun, the sweep, the expiry queue, renewal bounds, use
   counts and the narrowing of authority, over whole runs of calls with storage failures between any two
   storage calls of creating, using and revoking tokens, revoking leases and sweeping.
4. **Prefix views and path matching** (`Sorting`, `Views`, `Router`). The worklist traversal of a
   view, clearing, and the longest-prefix table against a linear scan of the patterns.

Where the source changes state step by step, the model is a class with methods, and each method is
proved against a function or a relation on states about which the results are then proved. Random
bytes, clock readings, fresh ids, backend replies and module setup are parameters. AES-GCM and the
JSON codecs are functions with the laws in `Platform`, and `LawsCanBeMet` shows that those laws are
consistent. Storage failures in the token store are a budget of calls that still succeed, so that a
method can stop between any two of them.

## What the proofs say about the code

- `split` with 255 parts does not work: the range end `part + 1` overflows a byte, so it panics or
  issues no shares (`Shamir.Split`). Thresholds below 2 are refused there, but not by
  `SealConfig::validate`.
- `init` therefore accepts configurations that can never be unsealed. The vault can be opened again
  if and only if module setup succeeded and the configuration is (1, 1) or has
  2 <= threshold <= shares <= 254 (`SealMachine.OpenableExactlyIfUsable`). With one share and
  threshold 0, `init` even succeeds and hands out the master key, which never opens anything
  (`SealMachine.OneShareThresholdZero`).
- An exact path pattern hides a shorter wildcard from its own extensions. A path is matched if and
  only if some pattern matches it and it is not hidden in this way (`Router.TableMatchExactly`).
- A renewal can end past issue time plus 30 days, because `calculate_ttl` truncates the clock to
  seconds and the expiry is counted from a second reading (`Lease.OvershootExample`). It stays within
  a bound exactly if the wanted time ends by then, or the deadline and the lag between the readings
  do, or the lease becomes one that never expires (`Lease.RenewalMeetsBoundExactly`). Any number of
  renewals stay within issue time plus the span if no lag exceeds the part of a second truncated
  from the issue time (`Lease.RenewalsMeetPlainBound`), and a renewal that is cut at its deadline of
  30 days stays within it only then (`Lease.CutRenewalExactly`).
- A renewal for less than a second, or with less than a second left, sets the expiry to the epoch, so
  the lease then never expires (`Lease.NeverExpiresExactly`, `Lease.NeverExpiresExample`).
  Whole-second durations rule that out (`Lease.WholeSecondsKeepExpiring`).
- A periodic token lease without an explicit maximum has no bound: renewed in time again and again,
  it outlives any instant (`Lease.PeriodicWithoutMaximumIsUnbounded`).
- `get_keys` fails exactly if a directory on the way contains ".." or starts with "/", and `clear`
  exactly if a key does (`Views.View.GetKeys`, `Views.View.Clear`).
- Secrets can outlive their token. If `revoke_tree` is interrupted between the deletion of a token
  and the revocation of its secrets, the rerun finds no token and leaves the secrets
  (`TokenRuns.SecretsOutliveToken`, `TokenRuns.OrphanedSecret`). A secret of the tree is left exactly
  if the first call deleted its token and not the secret, and one token at most is affected
  (`TokenRuns.RevokeAgain`).

## Model

| member | source | states |
|---|---|---|
| `Gf256Tables.ExpStep` | src/shamir.rs:37-52 | every entry of the exponent table is the previous one times the generator 0xe5 |
| `Gf256Tables.ExpLog` | src/shamir.rs:37-69 | the exponent table undoes the logarithm table at every nonzero byte |
| `Gf256.AddLaws` | src/shamir.rs:227-235 | addition is a commutative group in which every byte is its own negative |
| `Gf256.MulIsTimesPower` | src/shamir.rs:237-244 | the table product is repeated multiplication by the generator |
| `Gf256.MulCommutes` | src/shamir.rs:237-244 | multiplication is commutative |
| `Gf256.MulAssociates` | src/shamir.rs:237-244 | multiplication is associative |
| `Gf256.MulDistributes` | src/shamir.rs:227-244 | multiplication distributes over addition |
| `Gf256.MulOne` | src/shamir.rs:237-244 | 1 is neutral |
| `Gf256.NoZeroDivisors` | src/shamir.rs:237-244 | a product of nonzero bytes is nonzero |
| `Gf256.MulIsFipsProduct` | src/shamir.rs:237-244 | the table product is the polynomial product of section 4.2 of FIPS 197 |
| `Gf256.DivInvertsMul` | src/shamir.rs:246-263 | division inverts multiplication and is refused exactly for a nonzero byte over 0 |
| `Polynomials.AddPolynomials` | src/shamir.rs:282-304 | the loop computes the coefficientwise sum, padding the shorter argument |
| `Polynomials.MultiplyPolynomials` | src/shamir.rs:265-280 | the loop computes the schoolbook product |
| `Polynomials.EvalSum` | src/shamir.rs:282-304 | evaluating a sum gives the sum of the values, for all lengths and points |
| `Polynomials.EvalScale` | src/shamir.rs:265-280 | evaluating a multiple gives the multiple of the value |
| `Polynomials.EvalProduct` | src/shamir.rs:265-280 | evaluating a product gives the product of the values |
| `Polynomials.ProductLength` | src/shamir.rs:265-280 | degrees add up, the empty polynomial apart |
| `Polynomials.FactorTheorem` | src/shamir.rs:197-225 | the difference of two values is divisible by the difference of the points |
| `Polynomials.RootsForceZero` | src/shamir.rs:197-225 | a polynomial with as many distinct roots as coefficients is zero |
| `Polynomials.InterpolationUnique` | src/shamir.rs:197-225 | polynomials of one length that agree on that many distinct points are equal |
| `Interpolation.FullLagrange` | src/shamir.rs:197-225 | the loops return the interpolant, and None exactly if two points coincide |
| `Interpolation.BasisValue` | src/shamir.rs:200-218 | a basis polynomial is 1 at its own point and 0 at the others, with as many coefficients as points |
| `Interpolation.InterpolantValue` | src/shamir.rs:197-225 | the interpolant has as many coefficients as points and takes the given values |
| `Interpolation.InterpolationTheorem` | src/shamir.rs:197-225 | a polynomial fits the points if and only if it is the one returned |
| `Shamir.WithSecret` | src/shamir.rs:78-92 | one polynomial per secret byte, the byte first, then threshold - 1 random bytes |
| `Shamir.AccumulateShareBytes` | src/shamir.rs:181-195 | the running sum is the polynomial's value at the id; id 0 is refused |
| `Shamir.GetShare` | src/shamir.rs:94-107 | the values of all polynomials at the id, then the id; id 0 is refused |
| `Shamir.Split` | src/shamir.rs:163-175 | the shares of ids 1 to n, the refused counts, and the overflow at 255 parts |
| `Shamir.Combine` | src/shamir.rs:117-179 | the constant terms of the interpolants; None exactly for fewer than two shares, an empty one, uneven ones or two with one last byte |
| `Shamir.ThresholdRecovery` | src/shamir.rs:117-225 | any threshold or more of distinct issued shares, in any order, combine to exactly the secret |
| `Shamir.IssuedDistinct` | src/shamir.rs:163-175 | the issued shares are pairwise different |
| `Shamir.UniqueExplanation` | src/shamir.rs:78-107 | at distinct nonzero ids, any byte values and any secret byte belong to exactly one polynomial |
| `Shamir.NothingLeaksBelowThreshold` | src/shamir.rs:78-107 | for any threshold - 1 shares seen, every candidate secret is explained by exactly one choice of random bytes |
| `Platform.LawsCanBeMet` | src/storage/barrier_aes_gcm.rs:246-342 | the laws asked of the cipher and of the codecs are consistent, together with refusing wrong keys that differ in the first half |
| `Platform.StringsCanBeToldApart` | src/storage/barrier_aes_gcm.rs:280-322 | a cipher can refuse one of any two strings where the other was bound |
| `Barrier.Encrypt` | src/storage/barrier_aes_gcm.rs:246-291 | the filled buffer is 0, 0, 0, 1, 2, the nonce, and what the cipher makes of the plaintext with the path as additional data; it fails exactly without a key of 32 bytes |
| `Barrier.DecryptInvertsFraming` | src/storage/barrier_aes_gcm.rs:293-342 | a blob decrypts to a plaintext if and only if it is a frame of it under this key and, in version 2, this path |
| `Barrier.DecryptFramed` | src/storage/barrier_aes_gcm.rs:246-342 | decryption undoes encryption, in both versions |
| `Barrier.FramedBytes` | src/storage/barrier_aes_gcm.rs:246-291 | the bytes of a frame of either version; the path is additional data in version 2 alone |
| `Barrier.DecryptOther` | src/storage/barrier_aes_gcm.rs:293-342 | decrypting a frame under any key and path gives what the cipher answers about exactly them |
| `Barrier.DecryptRefusals` | src/storage/barrier_aes_gcm.rs:293-327 | what is refused before the cipher is asked, and with which error |
| `Barrier.PathIsBound` | src/storage/barrier_aes_gcm.rs:280-322 | what was encrypted for one path opens for another exactly if the cipher accepts the other as additional data; a version 1 frame opens for any path |
| `Barrier.OtherPathsFail` | src/storage/barrier_aes_gcm.rs:280-322 | with a cipher that tells the paths apart, what was encrypted for one fails for the others |
| `Barrier.AesGcmBarrier.Init` | src/storage/barrier_aes_gcm.rs:119-149 | the init record under the kek, the refusals, and a barrier left without a key |
| `Barrier.AesGcmBarrier.Unseal` | src/storage/barrier_aes_gcm.rs:169-197 | the new state and every refusal, including the wrong key left behind by a failure |
| `Barrier.AesGcmBarrier.Seal` | src/storage/barrier_aes_gcm.rs:199-204 | the key is dropped |
| `Barrier.AesGcmBarrier.List` | src/storage/barrier_aes_gcm.rs:55-65 | the backend's one-level names in order, each once; refused when sealed |
| `Barrier.AesGcmBarrier.Get` | src/storage/barrier_aes_gcm.rs:67-84 | reading, when sealed, absent, undecryptable or there |
| `Barrier.AesGcmBarrier.Put` | src/storage/barrier_aes_gcm.rs:86-99 | writing, when sealed or not |
| `Barrier.AesGcmBarrier.Delete` | src/storage/barrier_aes_gcm.rs:101-108 | deleting, when sealed or not |
| `Barrier.MasterKeyUnseals` | src/storage/barrier_aes_gcm.rs:119-197 | the key given to init opens the barrier with the data key stored then |
| `Barrier.RefinesStep` | src/storage/barrier_aes_gcm.rs:54-204 | every call keeps the stored frames in step with the client's map, if a wrong key that is tried does not open the record |
| `Barrier.RefinesRun` | src/storage/barrier_aes_gcm.rs:54-204 | so does every sequence of calls, from an uninitialised backend with any reserved paths |
| `Barrier.BarrierIsAMap` | src/storage/barrier_aes_gcm.rs:54-108 | over any number of seal cycles, get when unsealed returns the last value put and not deleted at every path that is not reserved, and list names exactly the paths that hold one, besides the reserved ones |
| `Barrier.SealedRefusesEverything` | src/storage/barrier_aes_gcm.rs:54-108 | while sealed, every call of any sequence of list, get, put and delete fails, and the state stays what it was |
| `Barrier.WrongKeysCanBeTried` | src/storage/barrier_aes_gcm.rs:169-197 | the condition on wrong keys is met by a run that initialises, tries a wrong key and unseals |
| `Barrier.InitAnswers` | src/storage/barrier_aes_gcm.rs:119-149 | what init of the barrier refuses, and what it leaves behind |
| `Barrier.UnsealAnswers` | src/storage/barrier_aes_gcm.rs:169-197 | what unseal of the barrier answers in each case, and the key that stays behind |
| `Barrier.OpenBarrierAnswers` | src/storage/barrier_aes_gcm.rs:67-108 | an open barrier answers put and delete with success, writes these bytes, and reads them back |
| `Barrier.MovedEntryIsRefused` | src/storage/barrier_aes_gcm.rs:67-84 | an entry moved to another path in the backend is refused there |
| `SealMachine.Vault.Init` | src/core.rs:165-238 | initialisation with all its exits, the barrier sealed again at the end |
| `SealMachine.Vault.Unseal` | src/core.rs:324-376 | one submission: length checks, repeats, progress, combination, barrier, setup hook |
| `SealMachine.Vault.Seal` | src/core.rs:378-393 | sealing with the teardown hook |
| `SealMachine.InitOutcome` | src/core.rs:165-238 | past its checks, init always leaves the barrier sealed, with the init record and the configuration stored |
| `SealMachine.SafeStep` | src/core.rs:165-423 | init, submissions, seal and requests keep the machine's invariant |
| `SealMachine.EveryRunIsSafe` | src/core.rs:165-423 | in every run pending shares are distinct, below the threshold and empty while open, and the core is unsealed only if the barrier is |
| `SealMachine.RejectedAttempt` | src/core.rs:343-368 | a set refused by combine or by the barrier leaves the vault sealed, without progress, all entries kept |
| `SealMachine.InitRefusals` | src/core.rs:165-171 | an initialised vault and a threshold above the number of shares are refused, and nothing changes |
| `SealMachine.SubmissionAnswers` | src/core.rs:324-351 | what a submission answers and changes before it reaches the threshold, for every key |
| `SealMachine.StoredConfigMeans` | src/core.rs:304-314 | how the stored configuration is read, and that a submission answers with its failure |
| `SealMachine.FailedSetup` | src/core.rs:368-375 | a full set with a failing setup opens the barrier and leaves the core as it was |
| `SealMachine.SealSeals` | src/core.rs:378-393 | a seal that succeeds leaves core and barrier sealed without a key; with a failing teardown nothing is sealed; a vault that is not open refuses |
| `SealMachine.SealedVaultRefuses` | src/core.rs:416-423 | a sealed vault refuses every storage call and request, and they change nothing |
| `SealMachine.OpenVaultAnswers` | src/core.rs:416-423 | an unsealed vault answers requests, and their writes take effect |
| `SealMachine.TooFewSubmissions` | src/core.rs:324-423 | no sequence of requests, seals and inits, with fewer submissions than the threshold, changes the barrier of a sealed vault |
| `SealMachine.SealHolds` | src/core.rs:324-423 | so a successful seal in any run holds until as many submissions as the threshold are made |
| `SealMachine.InstalledStep` | src/core.rs:165-423 | no later step takes the init record or the configuration away |
| `SealMachine.InstalledRun` | src/core.rs:165-423 | nor does any run |
| `SealMachine.SubmitBelow` | src/core.rs:324-351 | below the threshold repeats are ignored and the other shares collect in order |
| `SealMachine.FullSetRecovers` | src/core.rs:353-364 | a full set of issued shares gives back the master key |
| `SealMachine.InitThenUnseal` | src/core.rs:165-376 | submissions in any order with any repeats; the one that completes the threshold opens the barrier with the data key of init |
| `SealMachine.GenuineSetOpensLater` | src/core.rs:165-423 | after init and any run that ends sealed without progress, a full set of issued shares opens the vault with the data key of init |
| `SealMachine.GenuineSetAfterRejection` | src/core.rs:343-376 | after a refused set of shares at any point of any run, a genuine set still opens the vault |
| `SealMachine.VaultRefinesStep` | src/core.rs:165-423 | init, submissions, seals and requests keep the barrier in step with the map of the vault's clients |
| `SealMachine.VaultIsAMap` | src/core.rs:165-423 | over any run of the vault, whenever it is open every client path reads back the last value put and not deleted, through setup, teardown and requests, if wrong master keys that are tried do not open the record |
| `SealMachine.ThresholdZeroStaysSealed` | src/core.rs:324-376 | with threshold 0 no submission opens the barrier |
| `SealMachine.OpenableExactlyIfUsable` | src/core.rs:46-61 | what init hands out can open the vault if and only if the configuration is usable and setup succeeded, for every configuration that validates |
| `SealMachine.OneShareThresholdZero` | src/core.rs:165-376 | with one share and threshold 0 init succeeds, hands out the master key, and no submissions change the sealed vault |
| `Lease.CalculateTtl` | src/logical/lease.rs:66-137 | the first given of increment, backend's time and default, cut at the start plus the least maximum; with a period the least of it and the maxima, cut at the start plus an explicit maximum; which calls fail or panic |
| `Lease.TtlIsUnique` | src/logical/lease.rs:66-137 | that description, by membership and order among the arguments, determines the result |
| `Lease.TtlCases` | src/logical/lease.rs:155-308 | the twelve cases that the source names |
| `Lease.ExpirationIs` | src/logical/lease.rs:36-46 | a lease ends its time to live after now, or never if that is under a second |
| `Lease.RenewalEnds` | src/logical/lease.rs:40-137 | a renewal ends at most the clock lag past its deadline, and exactly there when it is cut |
| `Lease.RenewalsAreBounded` | src/logical/lease.rs:66-137 | no number of renewals passes issue time plus the span by more than the lag, and an expiring lease still ends if no renewal is for less than a second |
| `Lease.RenewalsMeetPlainBound` | src/logical/lease.rs:66-137 | any number of renewals end by issue time plus the span, if each lag is at most the truncated part of the issue time; with none for less than a second the lease does end |
| `Lease.RenewalMeetsBoundExactly` | src/logical/lease.rs:40-137 | exactly when any successful renewal ends within any bound |
| `Lease.CutRenewalExactly` | src/logical/lease.rs:66-137 | a renewal cut at its deadline of 30 days ends by issue time plus 30 days if and only if the lag is at most the truncated part of the issue time |
| `Lease.NeverExpiresExactly` | src/logical/lease.rs:36-46 | a renewal makes a lease never expire if and only if less than a second is wanted or left before the deadline |
| `Lease.NeverExpiresExample` | src/logical/lease.rs:36-46 | a renewal for half a second that makes a lease never expire |
| `Lease.WholeSecondsKeepExpiring` | src/logical/lease.rs:36-137 | with whole-second durations no number of renewals makes an expiring lease a never-expiring one |
| `Lease.OvershootExample` | src/logical/lease.rs:40-137 | a renewal of a running lease that ends 0.9 seconds past issue time plus 30 days |
| `Lease.PeriodicWithoutMaximumIsUnbounded` | src/logical/lease.rs:99-112 | for any bound there are periodic renewals without an explicit maximum, each made while the lease runs, that end past it |
| `Lease.DailyRenewals` | src/modules/auth/expiration.rs:239-290 | any number of one-day renewals, each at the very end of the lease, are in time and add a day each |
| `Forest.LiveReach` | src/modules/auth/token_store.rs:474-489 | an interrupted revocation keeps every path to a token that is still there |
| `Forest.PrunedTransitive` | src/modules/auth/token_store.rs:474-489 | bottom-up deletions compose |
| `Forest.RerunFinishes` | src/modules/auth/token_store.rs:466-489 | an interrupted revocation and then a complete one leave what one complete call leaves |
| `TokenStore.TokenStore.RevokeLeaseId` | src/modules/auth/expiration.rs:376-399 | one lease goes, out of its token's index too, and is queued as revoked if that is asked for; a token's lease takes the token's tree along first; how many storage calls suffice |
| `TokenStore.TokenStore.RevokeByToken` | src/modules/auth/expiration.rs:419-426 | all secrets indexed under the token go, out of the index and queued as revoked, and nothing else does, with a storage call for the listing and for each entry; how many calls suffice |
| `TokenStore.TokenStore.RevokeSalted` | src/modules/auth/token_store.rs:433-457 | the token, then its index entry and no other, then its secrets, and what an interruption leaves |
| `TokenStore.TokenStore.Revoke` | src/modules/auth/token_store.rs:425-457 | the orphaning revocation of one token |
| `TokenStore.TokenStore.RevokeChildren` | src/modules/auth/token_store.rs:483-486 | the loop over the listed children: each child's tree is gone, and nothing outside them |
| `TokenStore.TokenStore.RevokeTree` | src/modules/auth/token_store.rs:474-489 | terminates; children's trees before the token; on success nothing reachable is left; it makes no more storage calls than a bound in height and index sizes, and succeeds if so many do |
| `TokenStore.TokenStore.RevokeTreeOf` | src/modules/auth/token_store.rs:466-489 | on success exactly the reachable tokens are gone, with all their secrets; it succeeds for every nonempty id if enough storage calls do; interrupted, only tokens below, each after its descendants; only descendants by parent links go, and on success all whose line of stored parents leads to the token; other tokens and leases unchanged |
| `TokenStore.TokenStore.Sweep` | src/modules/auth/expiration.rs:434-487 | with a clock reading per entry, the last and the greatest of which are named: an error-free sweep with an overdue head leaves nothing due by the last reading in the storage or the queue, no token in the tree of a due token lease, and no secret of a token that went; with a clock that does not run back, exactly what is not due nor below something due is left; nothing goes that is not due by the greatest reading or below something due; interrupted, a token's lease is gone only after its tree, and secrets of one gone token at most are left; it succeeds if enough storage calls do |
| `TokenStore.TokenStore.Rounds` | src/modules/auth/expiration.rs:455-480 | the inner loop: its readings of the clock, what is left when it ends, and how many storage calls suffice |
| `TokenStore.TokenStore.Expire` | src/modules/auth/expiration.rs:458-480 | the head's lease is revoked unless its priority is 0, a token's with its whole tree and their secrets; one entry is popped, and the sweep comes nearer its end |
| `TokenStore.CompleteSweep` | src/modules/auth/expiration.rs:434-487 | what a complete sweep leaves, both ways, for tokens and for leases |
| `TokenStore.TreesGoneStep` | src/modules/auth/expiration.rs:376-399 | one more revoked lease keeps trees gone and secrets gone |
| `TokenStore.TokenStore.Push` | src/modules/auth/expiration.rs:497-502 | an entry equal to a queued one replaces its priority, and the head has the least priority |
| `TokenStore.TokenStore.StopThenRestore` | src/modules/auth/expiration.rs:490-494 | exactly when it succeeds; then the queue holds exactly the stored leases at their expiries, otherwise those restored so far |
| `TokenStore.TokenStore.Restore` | src/modules/auth/expiration.rs:176-189 | the loop over the stored leases, stopped anywhere or complete, also as a rerun |
| `TokenStore.TokenStore.RegisterSecret` | src/modules/auth/expiration.rs:293-332 | the stored, indexed and queued lease, with defaulted and capped lifetime; refused exactly for a path that fails the sanity check or when the storage fails |
| `TokenStore.TokenStore.RegisterAuth` | src/modules/auth/expiration.rs:335-373 | the stored and queued lease of a token, and exactly what is refused |
| `TokenStore.TokenStore.Renew` | src/modules/auth/expiration.rs:192-290 | a renewed lease keeps its key and issue time and ends where the renewal arithmetic says; exactly when a lease is renewed; every refusal changes nothing, and the errors |
| `TokenStore.TokenStore.ListUnderParent` | src/modules/auth/token_store.rs:323-333 | the parent must be stored, and the index entry comes before the token |
| `TokenStore.TokenStore.Create` | src/modules/auth/token_store.rs:308-339 | the stored token, or an index entry at most; the forest and the lineage grow |
| `TokenStore.Propose` | src/modules/auth/token_store.rs:500-604 | which requests are granted, both ways, and how the child stands to the parent |
| `TokenStore.TokenStore.HandleCreate` | src/modules/auth/token_store.rs:491-619 | exactly when a child is created, no wider than its parent, and never below a limited token; its policies, path and lifetimes; which index entry is written |
| `TokenStore.AuthorityNarrows` | src/modules/auth/token_store.rs:491-604 | however far down, a descendant of a token without root holds a subset of its policies, and an unexpiring one has no expiring ancestor |
| `TokenStore.AncestorsAreOlder` | src/modules/auth/token_store.rs:308-339 | parent links lead to older tokens, so there are no cycles |
| `TokenStore.ListedUnderParentOnly` | src/modules/auth/token_store.rs:308-339 | the parent index agrees with the records both ways: a stored token is listed under its parent and under no other id |
| `TokenStore.PathIsLine` | src/modules/auth/token_store.rs:474-489 | a path in the parent index, read upwards, is a line of parent links |
| `TokenStore.StoredLineIsReached` | src/modules/auth/token_store.rs:474-489 | a line of stored tokens is reached in the parent index |
| `TokenStore.TreeByLinks` | src/modules/auth/token_store.rs:466-489 | what `revoke_tree` reaches, in terms of parent links |
| `TokenStore.TokenStore.UseToken` | src/modules/auth/token_store.rs:342-366 | one use less, in the store and in the entry handed back; the last one revokes, an unlimited token is left alone |
| `TokenStore.TokenStore.CheckToken` | src/modules/auth/token_store.rs:369-396 | a stored token passes unless the storage fails, with the policies it is stored with; the pass is counted; the errors |
| `TokenStore.UsesRunOut` | src/modules/auth/token_store.rs:342-396 | a token never passes more often than granted and is gone once it has used them up |
| `TokenStore.TreeWithChild` | src/modules/auth/token_store.rs:474-489 | revoking a child's tree is part of revoking the parent's |
| `TokenStore.TreeWithRoot` | src/modules/auth/token_store.rs:474-489 | with the children's trees gone, revoking the token completes the tree |
| `TokenStore.SweptOne` | src/modules/auth/expiration.rs:455-480 | revoking one due lease is a step of a sweep |
| `TokenStore.LeaseQueued` | src/modules/auth/expiration.rs:497-502 | storing and pushing a lease keeps the queue in agreement |
| `TokenStore.QueuePops` | src/modules/auth/expiration.rs:455-480 | popping the entry of a revoked or never-expiring lease keeps the agreement |
| `TokenStore.PriorityMeans` | src/modules/auth/expiration.rs:497-502 | a priority is the expiry in whole milliseconds, and compares with a clock in milliseconds as the instants do |
| `TokenStore.OverdueMeans` | src/modules/auth/expiration.rs:445-453 | a sweep begins exactly if some entry's millisecond is past |
| `TokenStore.NotYetEndedStays` | src/modules/auth/expiration.rs:455-480 | a lease that ends after the last millisecond of the sweep, or never, stays unless its token went |
| `TokenStore.SecretEndsMeans` | src/modules/auth/expiration.rs:293-321 | a secret lives for a day if its time to live is under a second, and for thirty days at most |
| `TokenStore.RenewedLeaseMeans` | src/modules/auth/expiration.rs:192-290 | a renewed lease in terms of request, reply and clock; nothing but expiry and renewability changes |
| `TokenStore.CreatedTtlMeans` | src/modules/auth/token_store.rs:563-592 | the lifetime of a created token in terms of the request |
| `TokenRuns.Run` | src/modules/auth/token_store.rs:294-619 | over every run with fresh ids: every outcome and every change of tokens, parent index and leases is what the call says, and revocations and sweeps with enough storage calls succeed; authority narrows, also where it is handed out by checks; a limited token passes as often as granted, or a call of the run took it away; tokens are listed under their parents; expiring leases have exactly one queue entry at their expiry; every lease ends within any span and lag that the calls on it kept to, and does end if they asked for whole seconds |
| `TokenRuns.RevokeAgain` | src/modules/auth/token_store.rs:433-489 | a successful rerun of an interrupted `revoke_tree` leaves exactly the tokens that were not reachable at first, and exactly those secrets of the tree whose token the first call deleted without them; they belong to one token at most |
| `TokenRuns.SecretsOutliveToken` | src/modules/auth/token_store.rs:440-454 | for any token without children: interrupted right after its deletion, then rerun with success, all its secrets stay |
| `TokenRuns.OrphanedSecret` | src/modules/auth/token_store.rs:440-454 | a store with one token and one secret in which that happens |
| `TokenRuns.RenewalEnds` | src/modules/auth/expiration.rs:192-290 | renewing a stored lease keeps it within every span and lag that the call keeps to, and expiring if the durations are whole seconds |
| `TokenRuns.BoundedStep` | src/modules/auth/expiration.rs:192-373 | the bounds of all stored leases, and that they end, carry over from one call of a run to the next |
| `TokenRuns.SecretWithin` | src/modules/auth/expiration.rs:192-332 | for a secret the span is 30 days whatever is asked, so that only the lag and whole seconds matter |
| `TokenRuns.SoundLineage` | src/modules/auth/token_store.rs:491-604 | narrowing from parent to child, over a whole lineage |
| `TokenRuns.AsCreatedStep` | src/modules/auth/token_store.rs:385-396 | a check hands out the policies that the token was created with |
| `TokenRuns.SoundAuths` | src/modules/auth/token_store.rs:369-396 | the policies that checks hand out are among those of every ancestor without root |
| `TokenRuns.RootMeans` | src/modules/auth/token_store.rs:294-306 | the entry that `root_token` creates |
| `TokenRuns.SoundQueue` | src/modules/auth/expiration.rs:100-105 | each stored expiring lease has exactly one queue entry, at the millisecond in which it ends |
| `TokenRuns.SoundUses` | src/modules/auth/token_store.rs:342-396 | the observed outcomes of a run account for the uses of every token, stored or gone |
| `TokenRuns.GoneStep` | src/modules/auth/token_store.rs:342-489 | a token that is gone after a call has used up its uses, or this or an earlier call took it away |
| `TokenRuns.StepGone` | src/modules/auth/token_store.rs:342-489 | a stored token goes only by its last use, its failed last use, its own revocation, a tree revocation, a token lease's revocation or a sweep |
| `TokenRuns.NeedSuffices` | src/modules/auth/expiration.rs:376-487 | a number of storage calls, computed from the number of calls so far, that suffices for any revocation or sweep |
| `TokenRuns.LeaseIsRevoked` | src/modules/auth/expiration.rs:376-399 | revoking a lease by its id: the lease, the tree of its token, their secrets, and nothing else |
| `StorageKeys.KeysNeverCollide` | src/modules/auth/token_store.rs:308-339 | salt, tokens, parent index and lease index never share a key below `sys/token/` |
| `StorageKeys.EntriesAreSeparate` | src/modules/auth/expiration.rs:551-563 | reading, writing or deleting one entry touches that entry alone |
| `StorageKeys.ListingGivesChildren` | src/modules/auth/token_store.rs:474-489 | one-level listing of a parent's prefix gives exactly its index entries |
| `StorageKeys.ListingGivesLeases` | src/modules/auth/expiration.rs:574-593 | one-level listing of a token's prefix gives exactly its lease index entries |
| `StorageKeys.LeaseNamesNeverCollide` | src/modules/auth/expiration.rs:306-351 | secret and token leases never share a lease id |
| `StorageKeys.LeaseNameIsSane` | src/storage/barrier_view.rs:82-88 | a lease id passes the view's sanity check exactly if the lease's path is nonempty, does not start with a slash and has no two dots in a row |
| `StorageKeys.LookupsAreExact` | src/modules/auth/token_store.rs:288-423 | with collision-free salting, a key is stored exactly if the entry is in the store's contents |
| `StorageKeys.StoredChildren` | src/modules/auth/token_store.rs:474-489 | listing the storage gives the salted ids of exactly the children |
| `StorageKeys.StoredLeases` | src/modules/auth/expiration.rs:574-593 | listing the storage gives the salted ids of exactly the token's leases |
| `Views.Storage.List` | src/storage/mod.rs:171-205 | the one-level list contract: each name once, in order |
| `Views.NamesOfDir` | src/storage/mod.rs:171-205 | a listed name is a directory right below or a key right in the listed one |
| `Views.NamesThroughView` | src/storage/barrier_view.rs:12-15 | listing through a view is listing the view's own keys |
| `Views.View.List` | src/storage/barrier_view.rs:12-15 | the view's listing, or the sanity failure |
| `Views.View.Delete` | src/storage/barrier_view.rs:33-36 | deletes the prefixed key, or the sanity failure |
| `Views.ProgressStep` | src/storage/barrier_view.rs:48-68 | visiting one directory keeps visited, waiting and found in step, each directory and key once |
| `Views.AllFound` | src/storage/barrier_view.rs:48-68 | with an empty stack everything has been visited and found |
| `Views.View.GetKeys` | src/storage/barrier_view.rs:48-68 | terminates; sorted, each once, exactly the keys under the prefix; fails exactly on an insane directory |
| `Views.View.Clear` | src/storage/barrier_view.rs:70-76 | deletes exactly the keys under the prefix; fails exactly on an insane key; other keys kept in any case |
| `Views.ClearKeepsIncomparable` | src/storage/barrier_view.rs:70-101 | nothing visible through a view with an incomparable prefix changes |
| `Views.SaneDirs` | src/storage/barrier_view.rs:82-88 | if all keys pass the sanity check, so do all directories |
| `Views.SaneMeans` | src/storage/barrier_view.rs:82-88 | the sanity check: no two dots in a row anywhere, no slash at the start |
| `Sorting.LessMeans` | src/storage/barrier_aes_gcm.rs:61-64 | the order of sorted keys: an extension comes later, and so does a greater character at the first difference |
| `Router.Ancestor` | src/router.rs:111-118 | the longest stored prefix of a path, None exactly if there is none |
| `Router.NewRadixFromPaths` | src/router.rs:262-272 | the loop builds the table in which the last pattern written for a stem decides |
| `Router.MatchesMeans` | src/router.rs:140-190 | a pattern with a star at its end matches what begins like it, any other itself alone |
| `Router.LastPatternDecides` | src/router.rs:262-272 | the last pattern written for a stem sets its flag |
| `Router.TableEntries` | src/router.rs:262-272 | the table's keys are exactly the stems, and each flag comes from a pattern with that stem |
| `Router.TableMatchExactly` | src/router.rs:140-190 | the table says yes if and only if a pattern matches and no exact pattern shadows it |
| `Router.TableAgreesWithScan` | src/router.rs:140-190 | without an exact pattern at or below a wildcard's stem the table agrees with the scan on every path |
| `Router.ExactUnderWildcardDisagrees` | src/router.rs:140-190 | an exact pattern at or below a wildcard's stem makes the table disagree on every extension that no longer stem leads towards |
| `Router.MountedMatchExactly` | src/router.rs:140-190 | the answer over a mount table, through the longest mounted prefix |

## Left out

- The insides of AES-GCM, SHA-1, the random generator and UUIDs; salted ids are digests without collisions among the ids in use, and `TokenStore` identifies an id with its salted form.
- JSON, hexadecimal and time encodings, duration parsing and its errors, and the conversion of old lease records.
- Locks, threads and the ticker: methods are atomic steps, and nothing is claimed about progress. The sweep holds the queue's lock while it revokes; the model has no locks.
- Failures of the physical backend in `Barrier`, `SealMachine` and `Views`; in `TokenStore` they are modelled.
- TokenRuns.Run: a restart in a run is one that succeeds; `TokenStore.TokenStore.Restore` covers the others. The listings of a view's `get_keys` count as one storage call there.
- Interruption inside registering or renewing a lease: each of these is one atomic step, so the window between persisting a lease and queueing it is not modelled.
- TokenStore.TokenStore.RegisterSecret: the second clock reading is not before the first; the error that `register_secret` returns when the clock ran back by more than the lifetime is not modelled. Runs in `TokenRuns` take clocks that do not run back within one register or renew call.
- Barrier.Decrypt: works on values instead of truncating its buffer in place; `Barrier.Encrypt` fills an array.
- Barrier.AesGcmBarrier: the derived HMAC key.
- `is_valid_share`, `revoke_prefix` and the lookup handlers, which would only add easy members.
- The token store's `post_route`, which stores a parentless entry of its own, and re-creating an existing token id.
- The mount tables, `remount` and tainting, module setup and backends (hooks and replies here), policies beyond their names, HTTP, client, command line, metrics, MySQL, PKI and key bundles.
