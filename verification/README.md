# Verified models

Dafny models of the parts of this repository whose correctness is hard to see
from the code, with proofs of what they promise. `dafny verify dfyconfig.toml`
checks everything.

| area | files | source |
|---|---|---|
| RLP, the signed list, the ERC-20 calldata | Rlp, LegacyTx, TransferCall | rewards/payout.go |
| the key locker, one step per atomic instruction | KeyLocker, KeyLockerCalls, KeyLockerExclusion, KeyLockerStrangers, KeyLockerAnswers | ci/runners/garm/locking |
| the delete backoff | DeleteBackoff | ci/runners/garm/locking |
| nesting of the cache mutexes | LockOrder | ci/runners/garm/cache |
| entities, pools, scale sets, credentials, endpoints, instances | Params, EntityIndex, CredentialFlow, Lists, GarmCache, GarmPackage, InstanceJoin | ci/runners/garm/cache, ci/runners/garm/params |
| runner status transitions and the token gates | RunnerGates | ci/runners/garm/params, auth, database/sql |
| IDE proxy ports | Decimal, PortAllocator | abstraction/environment/incus.go |
| the storage chain | StorageChain | abstraction/storage/interface.go |
| the reward ledger | RewardLedger, RewardRuns, RewardRepeats | rewards/service.go |

Objects that the source updates in place are classes whose methods state the
whole new state; what the source promises about runs of calls is proved about
the functions those methods are tied to. The concurrency results are about
explicit steps of any number of threads.

## What the proofs found

Where a promise is not kept by the code as it stands, the model keeps the code
and a lemma says exactly when the promise holds.

- signLegacyTx puts the recipient and the calldata into its lists without
  rlpEncodeBytes, against its own comment: for a 20-byte recipient neither list
  reads back as the transaction (LegacyTx.RawLayoutReadsBack).
- v is computed in 64-bit arithmetic; above 2^63 the chain cannot be read back
  (LegacyTx.SigVReadsBack).
- encodeTransferCall drops the error of the hex decoder: 40 digits followed by
  junk are taken for an address, and a short address is shifted, not refused
  (TransferCall.SendsIff, TransferCall.SendsNamedAddressIff).
- Unlock does not check its caller: whoever calls it for a key with an entry can
  bring about a second holder (KeyLockerStrangers.StrangerSafeIffNoEntry).
- Delete and Unlock(key, true) take a lock object away from threads that hold it
  or wait for it; then two clients can hold the key
  (KeyLockerExclusion.RemovalSafeIffQuiescent). A LockedBy call that has loaded
  the object can go on naming its former holder
  (KeyLockerAnswers.RemovalMisleadsIff).
- GetEntity and GetAllEntities take a credential mutex under the entity mutex,
  SetCredentials and SetEndpoint the other way round: a wait cycle is reachable
  (LockOrder.StuckIffOpposite).
- Credentials are pushed to entities by ID alone, so a GitHub and a Gitea
  credential with the same ID overwrite each other's copies
  (CredentialFlow.SetCredentialsInStepIff).
- A pool or scale set that moves to another entity stays on the old one's list
  (EntityIndex.SetItemKeepsIff).
- DeleteEntityPool under another entity than the owner leaves the ID on the
  owner's list (EntityIndex.StepTightIff).
- GetEntityInstances looks at pool IDs only and misses the instances of scale
  sets (InstanceJoin.JoinAgreesIff).
- HasRequiredLabels refuses a list of matching labels that is longer than the
  tags because it repeats some (Params.LengthTestSafeIff).
- The update with which a failed instance is requeued is refused by the
  transition table (RunnerGates.RetryAcceptedIff).
- An instance whose deletion errs can become unknown and then run again, and its
  tokens pass the gates again (RunnerGates.BootstrapShutIff).
- hashName negates the smallest integer to itself, and the probe then starts
  below the range (PortAllocator.CandidateInRangeIff).
- A Put that returns an error can have reached the backend that serves the next
  Get, so the last successful write is not always what is read
  (StorageChain.LastSuccessReadBackIff).
- The comment on handlePayout speaks of rewards above the minimum; the code
  compares the running sum over all contributors (RewardLedger.ReadingsAgreeIff).
- handlePayout ignores errors of its status updates. A reward whose update is
  lost is paid again if what is still pending, up to it in the listing, reaches
  the minimum, and never otherwise (RewardRepeats.PaidAgainIff).
- Webhook events carry no project ID, so rewards for equal object numbers of two
  projects replace each other (RewardRuns.WebhookIDsIgnoreTheProject).

## Model

| member | source | states |
|---|---|---|
| Rlp.BigEndianRoundTrip | rewards/payout.go:301-313 | the minimal big-endian bytes of a number read back as the number, have no leading zero, and are empty only for 0 |
| Rlp.FromBigEndianRoundTrip | rewards/payout.go:301-313 | and every byte string without a leading zero is the minimal form of its value |
| Rlp.BigEndianWidth | rewards/payout.go:301-337 | a number needs at most k bytes iff it is below 256^k |
| Rlp.EncodeList | rewards/payout.go:323-329 | the loop returns the list encoding of the concatenated items |
| Rlp.SplitBytes | rewards/payout.go:316-321 | for every byte string below 2^63 bytes and every suffix, the Appendix B reader takes off exactly that string |
| Rlp.SplitPrefixed | rewards/payout.go:331-337 | the same for every length prefix, string or list, short or long |
| Rlp.SplitCanonical | rewards/payout.go:316-337 | whatever the reader takes off, the encoder would have printed in exactly those bytes |
| Rlp.DecodeEncode | rewards/payout.go:316-329 | round trip for every tree of strings and lists and every suffix |
| Rlp.DecodeCanonical | rewards/payout.go:316-329 | the decoder accepts only what the encoder prints |
| Rlp.DecodeIffEncode | rewards/payout.go:316-337 | main result: the decoder answers (t, rest) iff the input is the encoding of t followed by rest |
| Rlp.PrefixFree | rewards/payout.go:316-337 | encodings are prefix-free: two encodings with suffixes are equal only part by part |
| Rlp.ListRoundTrip | rewards/payout.go:323-329 | decoding a list of well-formed item encodings gives back the items, whatever follows |
| Rlp.IntegerEncodings | rewards/payout.go:301-314 | rlpEncodeUint and rlpEncodeBigInt agree and equal the string encoding of the minimal bytes, 0 included |
| Rlp.BigIntEncoding | rewards/payout.go:309-314 | for nil, zero, positive and negative big integers the encoding is that of the magnitude |
| Rlp.BigIntSign | rewards/payout.go:309-314 | nil prints like 0, and a negative number like its absolute value |
| Rlp.EncodeUintInjective | rewards/payout.go:301-307 | two uint64 values have the same encoding iff they are equal |
| Rlp.EncodeBigIntInjective | rewards/payout.go:309-314 | two big integers have the same encoding iff their magnitudes are equal; the sign is lost |
| LegacyTx.ItemsOfTheCode | rewards/payout.go:240-275 | both lists of signLegacyTx are one nine-item layout with to and data raw |
| LegacyTx.ToUint64Keeps | rewards/payout.go:251 | the conversion of the chain keeps its value modulo 2^64, all of it from zero up, and tells any two chains apart |
| LegacyTx.RawLayoutReadsBack | rewards/payout.go:240-275 | main result: such a list reads back as the nine fields iff to and data are each one byte below 0x80 |
| LegacyTx.SignLegacyTxNeverReadsBack | rewards/payout.go:230-276 | for a 20-byte recipient neither the hashed nor the sent list reads back as the transaction |
| LegacyTx.EncodedLayoutReadsBack | rewards/payout.go:263-275 | with to and data passed through rlpEncodeBytes the list is uniquely decodable, whatever follows |
| LegacyTx.RawLayoutCommits | rewards/payout.go:240-257 | with fixed widths of to and data, equal hashed lists mean equal fields up to the sign of an integer |
| LegacyTx.HashedListNamesTheChain | rewards/payout.go:240-257 | so the hashed list names the chain |
| LegacyTx.SigVIsOneWrap | rewards/payout.go:289-296 | the three wrapped operations of v are one wrap of 2c + 35 + recovery byte |
| LegacyTx.SigVReadsBack | rewards/payout.go:289-296 | chain and parity read back from the printed v iff the recovery byte is 27 or 28 and 2c + 35 + bit is from 0 to 2^63 |
| TransferCall.Copy | rewards/payout.go:126-131 | copy into a slice of the buffer writes as many bytes as fit and nothing else |
| TransferCall.EncodeTransferCall | rewards/payout.go:119-133 | the buffer filled in place is the calldata of the specification; None is the slice panic |
| TransferCall.HexRoundTrip | rewards/payout.go:121-122 | hex digits of a byte string decode to it and have no 0x prefix |
| TransferCall.LowerKeepsBytes | rewards/payout.go:121-122 | lower-casing a string, hex or not, changes nothing in what the decoder makes of it |
| TransferCall.AddressAsWritten | rewards/payout.go:121-122 | the address bytes are the hex value of the string as written, without its prefix |
| TransferCall.AddressRoundTrip | rewards/payout.go:121-122 | the strings that give these address bytes with two digits for each are exactly their spellings, each letter in either case, with or without 0x or 0X |
| TransferCall.CalldataLayout | rewards/payout.go:124-132 | for 20 address bytes the result is the bytes a9 05 9c bb, 12 zeros, address, left-padded amount |
| TransferCall.TransferCallReadsBack | rewards/payout.go:119-133 | main result: the calldata reads back as address and amount iff the address has 20 bytes and 0 <= amount < 2^256 |
| TransferCall.CalldataPanicsIff | rewards/payout.go:130-131 | the slice panics iff the amount needs more than 68 bytes |
| TransferCall.LongAmountOverwrites | rewards/payout.go:126-131 | from 33 to 68 bytes the amount stands at the end and only the bytes of selector and address word ahead of it are left |
| TransferCall.ShortAddressIsShifted | rewards/payout.go:121-128 | a 19-byte address is silently read as that address followed by a zero byte |
| TransferCall.StrictHexIff | rewards/payout.go:121-122 | the hex decoder has no error iff the length is even and all characters are digits |
| TransferCall.HexDecodeLength | rewards/payout.go:121-122 | with its error dropped it gives n bytes iff 2n digits are followed by no further pair of digits |
| TransferCall.SendsIff | rewards/payout.go:119-133 | main result: the calldata of an address string reads back iff the amount is a uint256 and the string as written, without its prefix, has 40 digits followed by no pair of digits |
| TransferCall.SendsNamedAddressIff | rewards/payout.go:119-133 | it reads back as the address the string names without a decoding error iff the 40 digits are all there is |
| KeyLocker.StepWellFormed | ci/runners/garm/locking/local_locker.go:46-116 | no step of any call refers to a lock object that was never stored |
| KeyLocker.StepConserves | ci/runners/garm/locking/local_locker.go:46-99 | each atomic step keeps the token balance of every lock object and never unlocks an unlocked mutex |
| KeyLocker.TokensConservedFrom | ci/runners/garm/locking/local_locker.go:46-116 | the same over whole runs from any balanced state |
| KeyLocker.TokensConserved | ci/runners/garm/locking/local_locker.go:46-116 | main result: for any threads, calls and interleaving (Unlock by non-holders, remove and Delete included) a mutex is held iff exactly one token exists: a thread before Store(true), the flag, or a CompareAndSwap winner; so no unlocked mutex is unlocked |
| KeyLockerCalls.AcquireStarts | ci/runners/garm/locking/local_locker.go:46-52 | an attempt to lock stands before the mutex of the key's object; a fresh object is stored iff the key had none |
| KeyLockerCalls.OthersStart | ci/runners/garm/locking/local_locker.go:86-116 | Unlock and LockedBy load the key's object or return at once without one; Delete takes exactly the entry out |
| KeyLockerCalls.CallsRunThrough | ci/runners/garm/locking/local_locker.go:46-116 | main result: in every interleaving a call that has begun goes on until it returns, and it returns as it should: with the lock under its own key and name, or false or the context's error with nothing changed; for Unlock with the entry gone iff remove; for LockedBy without a name only if it read none |
| KeyLockerCalls.UnlockRemovesIff | ci/runners/garm/locking/local_locker.go:86-99 | main result: in every interleaving an Unlock that has returned took the key's entry out once if remove is set, and never otherwise |
| KeyLockerCalls.RemovalStep | ci/runners/garm/locking/local_locker.go:96-103 | taking the entry out changes nothing else and ends the call |
| KeyLockerCalls.UnlockAlone | ci/runners/garm/locking/local_locker.go:86-99 | uninterrupted, Unlock clears the name, releases the mutex iff the flag was set, and has then returned with the map as it was, or stands before the removal |
| KeyLockerCalls.OnlyRemoval | ci/runners/garm/locking/local_locker.go:96-98 | before the removal there is no other step of that thread |
| KeyLockerExclusion.CarefulStepKeeps | ci/runners/garm/locking/local_locker.go:46-116 | each disciplined step, with removals only of unused keys, keeps the ownership invariant |
| KeyLockerExclusion.CarefulRunKeeps | ci/runners/garm/locking/local_locker.go:46-116 | the same over runs: every such run can be carried out and ends in the invariant |
| KeyLockerExclusion.MutualExclusion | ci/runners/garm/locking/local_locker.go:46-116 | main result: at most one client holds a key at any time of such a run |
| KeyLockerExclusion.RemovalInUseBreaks | ci/runners/garm/locking/local_locker.go:96-103 | removing the entry of a key in use lets careful clients reach two holders |
| KeyLockerExclusion.RemovalSafeIffQuiescent | ci/runners/garm/locking/local_locker.go:86-103 | main result: Delete or Unlock(key, true) leaves exclusion unbreakable iff nobody holds the key or is on the way to holding it |
| KeyLockerExclusion.DeleteWhileHeldBreaks | ci/runners/garm/locking/local_locker.go:101-103 | a concrete careful run at whose end a client holds the key, and Delete then lets careful clients reach two holders |
| KeyLockerStrangers.StrangerSafeIffNoEntry | ci/runners/garm/locking/local_locker.go:86-99 | main result: one Unlock by a client that does not hold the key leaves exclusion unbreakable iff the key has no entry, and then it changes nothing |
| KeyLockerAnswers.LockedByNamesTheHolder | ci/runners/garm/locking/local_locker.go:105-116 | main result on one answer of any careful run: a non-empty identifier is that of exactly one client of the loaded lock object, and it names the holder of the key iff that object is still what the map holds for the key |
| KeyLockerAnswers.NoRemovalKeepsCurrent | ci/runners/garm/locking/local_locker.go:46-116 | in a run without Delete and without remove every lock object stays the one of its key |
| KeyLockerAnswers.RightWithoutRemoval | ci/runners/garm/locking/local_locker.go:105-116 | main result: in such a run of clients that unlock only what they hold, every non-empty answer is the identifier of a client of the key's lock object, and whoever holds the key holds it under that identifier |
| KeyLockerAnswers.TidyRunKeeps | ci/runners/garm/locking/local_locker.go:46-116 | if entries are removed only when unused and when no LockedBy call can read a name from them, readers only see names of current objects |
| KeyLockerAnswers.RightInTidyRuns | ci/runners/garm/locking/local_locker.go:105-116 | main result: in these runs, too, every non-empty answer is right |
| KeyLockerAnswers.RemovalMisleadsIff | ci/runners/garm/locking/local_locker.go:101-116 | main result: removing the entry of an unused key can lead to an answer that is not the holder's iff the object still carries a name and a LockedBy call has loaded it |
| KeyLockerAnswers.StaleAnswer | ci/runners/garm/locking/local_locker.go:86-116 | a concrete careful run: LockedBy says "a" while the only holder of the key is "b" |
| LockOrder.MutexesOf | ci/runners/garm/cache/entity_cache.go:114-145 | which mutexes each call takes |
| LockOrder.ProgramOrdered | ci/runners/garm/cache/entity_cache.go:114-145 | without opposite nesting every call takes its mutexes in increasing order and releases what it took |
| LockOrder.SomeoneCanStep | ci/runners/garm/cache/credentials_cache.go:55-77 | from an ordered state, following the holders from any thread leads to one that can go on |
| LockOrder.NeverStuck | ci/runners/garm/cache/credentials_cache.go:55-77 | main result: without opposite nesting, for any number of threads, no reachable state has all threads waiting or some of them waiting in a circle; whoever waits, waits in the end for a thread that can go on |
| LockOrder.OppositeGetsStuck | ci/runners/garm/cache/entity_cache.go:126-145 | a call that looks credentials up under the entity mutex together with one that pushes under the same credential mutex reaches a wait cycle |
| LockOrder.StuckIffOpposite | ci/runners/garm/cache/entity_cache.go:412-434 | main result: a mix of calls can get all threads stuck, and can get some threads into a wait circle, iff it nests some credential mutex and the entity mutex both ways |
| LockOrder.ReaderAndSetter | ci/runners/garm/cache/entity_cache.go:126-145 | one GetEntity, GetAllEntities or GetEntityForInstance and one setter of the same kind of credentials suffice |
| RunnerGates.BootstrapStaysClosed | ci/runners/garm/params/params.go:233-269 | over every run of updates a status outside pending and installing stays outside |
| RunnerGates.AgentStaysClosed | ci/runners/garm/params/params.go:233-269 | over every run of updates active, terminated and failed stay among themselves |
| RunnerGates.RunnerStepIff | ci/runners/garm/params/params.go:233-269 | unforced, a runner goes on by one stage, fails while it is set up, or is terminated, and nothing else |
| RunnerGates.InstanceStepIff | ci/runners/garm/params/params.go:180-231 | unforced, an instance takes exactly the steps of creation, running, deletion and error, and unknown stands between all others |
| RunnerGates.NoTransitionsIff | ci/runners/garm/database/sql/instances.go:310-344 | which statuses have no entry in the tables |
| RunnerGates.AcceptedUpdate | ci/runners/garm/database/sql/instances.go:347-377 | an accepted update stores the statuses and the attempt it names and leaves the others |
| RunnerGates.BootstrapAdmitsIff | ci/runners/garm/auth/instance_middleware.go:182-271 | main result: the gate admits a request iff it carries a valid bootstrap token of the current attempt, the runner is pending or installing and the instance creating or running |
| RunnerGates.AgentAdmitsIff | ci/runners/garm/auth/agent_middleware.go:96-190 | main result: the gate admits a request iff it carries a valid agent token of the current attempt, the runner is not active, terminated or failed, and the instance is running |
| RunnerGates.NoneForBoth | ci/runners/garm/auth/agent_middleware.go:96-190 | no request passes both gates, whatever is stored |
| RunnerGates.BootstrapShutIff | ci/runners/garm/auth/instance_middleware.go:248-268 | main result: once deletion has begun, no run of unforced updates leads to an admission iff they do not set error, unknown and one of running and creating |
| RunnerGates.AgentShutIff | ci/runners/garm/auth/agent_middleware.go:168-186 | main result: the same for the agent gate, iff they do not set error, unknown and running |
| RunnerGates.BootstrapPermanentIff | ci/runners/garm/auth/instance_middleware.go:232-237 | main result: a bootstrap refusal for runner status is permanent iff no forced update sets pending or installing |
| RunnerGates.AgentPermanentIff | ci/runners/garm/auth/agent_middleware.go:150-158 | main result: an agent refusal for runner status is permanent iff forced updates set only active, terminated or failed |
| RunnerGates.GatesArePermanent | ci/runners/garm/runner/pool/pool.go:906-915 | the statuses the pool manager forces, active and terminated, keep both gates permanent |
| RunnerGates.RetryAcceptedIff | ci/runners/garm/database/sql/instances.go:310-344 | the requeueing update is accepted iff the runner status is pending and the instance is pending creation or unknown |
| RunnerGates.RetryIsRefused | ci/runners/garm/runner/pool/pool.go:1417-1479 | so for the instances it is sent for, those in error, it is refused every time |
| RunnerGates.RetryRevokesTokens | ci/runners/garm/runner/pool/pool.go:1464-1479 | where it is stored, no token issued up to then passes a gate |
| DeleteBackoff.InstanceDeleteBackoff.ShouldProcess | ci/runners/garm/locking/local_backoff_locker.go:39-56 | answer and deadline from the entry before the call; a missing entry is created |
| DeleteBackoff.InstanceDeleteBackoff.Delete | ci/runners/garm/locking/local_backoff_locker.go:58-60 | the key's entry goes, nothing else changes |
| DeleteBackoff.InstanceDeleteBackoff.RecordFailure | ci/runners/garm/locking/local_backoff_locker.go:62-77 | the key's entry takes one failure step at the given time, nothing else changes |
| DeleteBackoff.IterateIsClosedForm | ci/runners/garm/locking/local_backoff_locker.go:68-76 | n failures in a row give min(c * 1.5^(n-1), 1200) for 0 <= c <= 1200 |
| DeleteBackoff.ClosedFormIff | ci/runners/garm/locking/local_backoff_locker.go:69-76 | the closed form holds for every n iff the start value is at most 1200 |
| DeleteBackoff.EntryAfterRun | ci/runners/garm/locking/local_backoff_locker.go:39-77 | main result: after any run on any keys a key's entry is the closed form of its failures since its last Delete |
| DeleteBackoff.BackoffMonotone | ci/runners/garm/locking/local_backoff_locker.go:72-76 | the backoff never decreases with more failures and never exceeds the cap |
| DeleteBackoff.CapReached | ci/runners/garm/locking/local_locker.go:27 | the cap is reached after a stated number of failures |
| DeleteBackoff.FiveSecondSchedule | ci/runners/garm/runner/common/pool.go:26 | from five seconds the fifteenth failure is the first at the cap |
| DeleteBackoff.ShouldProcessAfterRun | ci/runners/garm/locking/local_backoff_locker.go:39-56 | main result: over every run the answer is no iff the key has failed since its last Delete and the whole seconds of its backoff have not passed; more than 1200 s after the last failure it is yes; the deadline is the last failure plus those seconds, and missing without failures |
| DeleteBackoff.KeysAfterRun | ci/runners/garm/locking/local_backoff_locker.go:39-77 | after any run a key has an entry iff its last call was not Delete |
| DeleteBackoff.KeysIndependent | ci/runners/garm/locking/local_backoff_locker.go:35-77 | calls on other keys change nothing for a key |
| Decimal.DigitsValue | abstraction/environment/incus.go:415 | the decimal digits printed for a number are digits and read as the number |
| Decimal.ScanPrint | abstraction/environment/incus.go:445 | the %d scanner reads back every 64-bit integer that %d printed, before any text that does not go on with a digit |
| Decimal.ScanPositive | abstraction/environment/incus.go:445 | with a plus sign it reads a number up to 2^63 - 1 and refuses a larger one |
| Decimal.PrintInjective | abstraction/environment/incus.go:415 | different integers print differently |
| PortAllocator.HashName | abstraction/environment/incus.go:528-537 | the loop computes the wrapped 64-bit hash and its wrapped absolute value |
| PortAllocator.CandidateInRangeIff | abstraction/environment/incus.go:396 | the candidate is in 10000..59999 iff the wrapped hash is not the smallest integer, and then congruent to its absolute value; otherwise it is -15808 |
| PortAllocator.OutOfRangeName | abstraction/environment/incus.go:528-537 | a concrete container name whose candidate is -15808 |
| PortAllocator.FirstFreePort | abstraction/environment/incus.go:396-406 | the probe returns the first unused port in cyclic order and errors iff all 50000 are used; from below the range the first unused one upwards |
| PortAllocator.ProbeResultUnique | abstraction/environment/incus.go:396-406 | that contract leaves one answer |
| PortAllocator.UsedProxyPorts | abstraction/environment/incus.go:431-452 | the set is exactly the ports parsed from managed containers' proxy devices |
| PortAllocator.AfterLastColonIs | abstraction/environment/incus.go:443-475 | what is parsed, and what the URL is rebuilt from, is the text behind the last colon, wherever that is |
| PortAllocator.ListenAddrRoundTrip | abstraction/environment/incus.go:415-449 | the parser reads back exactly the port that addProxyDevice printed |
| PortAllocator.EventKeepsDistinct | abstraction/environment/incus.go:388-427 | each create, delete or foreign change keeps the claimed ports distinct |
| PortAllocator.PortsDistinct | abstraction/environment/incus.go:388-452 | main result: at every moment of every sequential run managed proxies have pairwise distinct ports |
| PortAllocator.ContainerStable | abstraction/environment/incus.go:76-167 | a managed container does not change while it exists |
| PortAllocator.RebuiltURLNames | abstraction/environment/incus.go:471-485 | the rebuilt URL names the configured host, or localhost, and the port of the device; without a device there is none |
| PortAllocator.URLStable | abstraction/environment/incus.go:471-485 | main result: instanceToEnv rebuilds the URL that Create returned as long as the container exists |
| StorageChain.Chain.Put | abstraction/storage/interface.go:75-103 | if the source cannot be read nothing is written and that is the error; otherwise every available backend is written, the others are untouched, and the error is nil iff some backend was available and every available one succeeded, else the first failure or no backend |
| StorageChain.Chain.Delete | abstraction/storage/interface.go:114-133 | the same for Delete |
| StorageChain.Chain.Active | abstraction/storage/interface.go:64-71 | the first available backend, if any |
| StorageChain.Chain.Get | abstraction/storage/interface.go:105-111 | the answer of the first available backend, or no backend |
| StorageChain.Chain.List | abstraction/storage/interface.go:143-149 | exactly the keys with the prefix at the first available backend, or no backend |
| StorageChain.FanOutResultUnique | abstraction/storage/interface.go:82-102 | that error contract leaves one answer |
| StorageChain.ServedValue | abstraction/storage/interface.go:75-133 | main result: over any run what a backend serves is the effect of the latest write of the key that reached it |
| StorageChain.ReadsLastSuccessfulWrite | abstraction/storage/interface.go:75-111 | a backend that took part in a successful write serves it until a later write of the key reaches it |
| StorageChain.ReadBackIff | abstraction/storage/interface.go:75-133 | main result: given only the keys and the availability of the later calls, the backend is sure to serve that write iff no later write of the key reaches it |
| StorageChain.LastSuccessReadBackIff | abstraction/storage/interface.go:88-111 | main result: the same condition is needed and enough when all later writes of the key return errors |
| StorageChain.FailedWriteIsServed | abstraction/storage/interface.go:88-102 | one case: a Put that returned an error is served by a later Get |
| StorageChain.ChainStepError | abstraction/storage/interface.go:96-102 | without failures the fan-out returns nil iff some backend is available, else no backend |
| StorageChain.ChainIsOneStore | abstraction/storage/interface.go:63-149 | with constant availability and no failures the outputs of every run are those of one store |
| StorageChain.ChainIsOneStoreIff | abstraction/storage/interface.go:63-149 | main result: they are so for all runs iff some backend is available |
| RewardLedger.Service.New | rewards/service.go:143-169 | refused when disabled or when the store cannot be opened; otherwise the stored rows and wallets, the saved or the default rates, and a zero minimum becomes 5 BAT |
| RewardLedger.DefaultsInOrder | rewards/service.go:123-131 | the default rates: 1, a quarter, a tenth and a twentieth of a BAT |
| RewardLedger.RatesByKind | rewards/service.go:247-260 | each kind of contribution earns its own rate, any other kind nothing |
| RewardLedger.Service.QueueReward | rewards/service.go:216-245 | the row of the event's ID is replaced by a pending row of its user at the current rate and time, or nothing changes on a database error |
| RewardLedger.Service.RegisterWallet | rewards/service.go:433-464 | wrong method, missing fields and database errors are refused without effect; otherwise the user has a wallet from then on |
| RewardLedger.Service.LoadPendingRewards | rewards/service.go:782-813 | every row once, by queue time; rows of the same second in any order |
| RewardLedger.Service.PayEach | rewards/service.go:532-580 | the loop over any listing: rows with status, time and hash, paid and failed lists and total, each given row by row from the state before |
| RewardLedger.Service.HandlePayout | rewards/service.go:520-588 | wrong method and an unreadable table are refused without effect; otherwise the loop's result for a listing in queue order |
| RewardLedger.ThresholdIsSuffix | rewards/service.go:536-543 | main result: with non-negative amounts the rows that pass are the pending ones from the first place where the running sum reaches the minimum |
| RewardLedger.ReadingsAgreeIff | rewards/service.go:516-543 | main result: the running-sum test agrees with "this reward reaches the minimum" on all pending rows iff every pending row from the first passing place on reaches it alone |
| RewardLedger.TwoSmallRewards | rewards/service.go:540-543 | a concrete ledger: of two rewards of 3 BAT with a minimum of 5 the second passes |
| RewardLedger.SuffixIffNoNegativeRate | rewards/service.go:540-543 | with a positive minimum and a positive rate, the passing rows are a suffix in every ledger iff no rate is negative |
| RewardRuns.RowAfter | rewards/service.go:536-580 | a payout changes exactly the submitted rows whose update was stored, each to paid or failed |
| RewardRuns.AttemptedExactly | rewards/service.go:536-580 | a row is reported iff it passes, its user has a wallet and the look-up succeeded |
| RewardRuns.StoredRow | rewards/service.go:557-580 | a stored update leaves the row paid with the new hash iff the payment went through, failed with the old hash iff it erred, with the time, and all else as it was |
| RewardRuns.OtherRows | rewards/service.go:536-580 | all other rows stay as they were |
| RewardRuns.AnswerMatchesTable | rewards/service.go:557-588 | main result: who is reported as paid is paid in the table, who is reported as failed has failed, except that a lost update leaves the row pending; nobody is reported as both |
| RewardRuns.ListingSum | rewards/service.go:782-813 | the total of the pending rows is the same in every order of the rows |
| RewardRuns.SubmitsNothingIff | rewards/service.go:532-580 | no payout, whatever the order of the rows, can submit anything iff the pending total is below the minimum or no pending row has a wallet |
| RewardRuns.SubmitsNothingInOrderIff | rewards/service.go:532-580 | main result: in the order of the query, nothing can be submitted iff no pending row has a wallet or the pending amounts up to the last one that has stay below the minimum |
| RewardRuns.PayoutIdempotent | rewards/service.go:520-588 | main result: if every pending contributor has a wallet, a payout leaves less than the minimum pending, so a second one submits nothing in any order |
| RewardRuns.SameOrderRepeats | rewards/service.go:520-588 | without that assumption a repeat in the same order still submits nothing |
| RewardRuns.SubmittedOnce | rewards/service.go:536-580 | one payout submits a listed row at most once |
| RewardRuns.PayBalances | rewards/service.go:536-580 | one payout keeps the balance of every reward ID |
| RewardRuns.Conservation | rewards/service.go:216-245 | main result: over every run queued + lost updates = submitted + replaced while pending + still pending, per reward ID |
| RewardRuns.SubmissionBound | rewards/service.go:216-245 | without lost updates an ID is submitted at most as often as it was queued; in general the counters say by how much |
| RewardRuns.SettledRowStays | rewards/service.go:561-576 | a paid or failed row changes only by being queued again |
| RewardRuns.SettledRowStaysInRuns | rewards/service.go:561-576 | the same over runs |
| RewardRepeats.StillPendingIffLost | rewards/service.go:559-576 | a submitted row is still pending after the payout iff its status update was lost |
| RewardRepeats.TooFewNeverSubmitted | rewards/service.go:532-580 | while the pending amounts that can be listed no later than a row stay below the minimum, no run in queue order submits it, whatever is queued later |
| RewardRepeats.SettledNeverSubmitted | rewards/service.go:536-580 | a paid or failed row is not submitted in such a run either |
| RewardRepeats.PaidAgainIff | rewards/service.go:532-580 | main result: after a payout in queue order submits a row, some run in queue order without queueing the ID again submits it once more iff the status update was lost and the amounts still pending, listed no later than the row, add up to the minimum |
| RewardRepeats.LostUpdatePaysTwice | rewards/service.go:571-576 | for every event whose reward reaches the minimum alone: queued once, two payouts with lost updates, two submissions |
| RewardRuns.RewardIDExample | rewards/service.go:219 | the format: issue-12-7 |
| RewardRuns.RewardIDInjective | rewards/service.go:219 | for kinds without a dash and all 64-bit numbers an ID stands for one kind, project and object |
| RewardRuns.WebhookIDsIgnoreTheProject | rewards/service.go:377-418 | webhook events carry no project, so equal object numbers of two projects share an ID |
| Params.Resource.Owner | ci/runners/garm/params/params.go:555-597 | the owner is the first non-empty ID among repository, organization and enterprise; it is never empty and missing iff all three are |
| Params.HasRequiredLabels | ci/runners/garm/params/params.go:599-614 | true iff there are no more labels than tags and every lower-cased label is among the lower-cased tags |
| Params.WithinIff | ci/runners/garm/params/params.go:603-613 | every label is within the tags iff each occurs among them up to case |
| Params.LabelsMatchIffWithin | ci/runners/garm/params/params.go:600-602 | main result: for labels distinct up to case the length test never matters |
| Params.LengthTestSafeIff | ci/runners/garm/params/params.go:600-602 | for which label counts it is right for all label lists: up to the number of tags, or any if there are none |
| EntityIndex.CoherentMeansFlat | ci/runners/garm/cache/entity_cache.go:343-377 | in a coherent index the list of an entity is what the flat table holds for it, and every owner is cached |
| EntityIndex.SetItemKeepsIff | ci/runners/garm/cache/entity_cache.go:241-271 | SetEntityPool and SetEntityScaleSet keep coherence iff they have no effect or no other entity lists the ID |
| EntityIndex.ReplaceKeepsIff | ci/runners/garm/cache/entity_cache.go:165-224 | ReplaceEntityPools and ReplaceEntityScaleSets keep coherence iff no other entity lists an accepted ID |
| EntityIndex.DeleteEntityKeeps | ci/runners/garm/cache/entity_cache.go:226-239 | DeleteEntity keeps coherence and leaves no orphan |
| EntityIndex.AddEntityKeeps | ci/runners/garm/cache/entity_cache.go:147-163 | SetEntity keeps coherence |
| EntityIndex.DeleteItemKeeps | ci/runners/garm/cache/entity_cache.go:273-293 | deleting a pool or scale set, under any entity ID, keeps coherence |
| EntityIndex.AddAllIs | ci/runners/garm/cache/entity_cache.go:179-191 | the adding loop files exactly the accepted resources under their IDs and keeps the rest |
| EntityIndex.AddAllStores | ci/runners/garm/cache/entity_cache.go:179-191 | each accepted resource is stored as given, unless a later one of the same ID is |
| EntityIndex.AddAllOverlays | ci/runners/garm/cache/entity_cache.go:179-191 | the adding loop lays the last accepted resource of each ID over the table |
| EntityIndex.StepRefinesFlat | ci/runners/garm/cache/entity_cache.go:147-293 | from a coherent index every operation acts as on one flat table, where Replace drops what the entity owned and overlays the last accepted resource of each ID |
| EntityIndex.StepKeeps | ci/runners/garm/cache/entity_cache.go:147-293 | operations that never change an ID's owner keep the index coherent |
| EntityIndex.RunRefinesFlat | ci/runners/garm/cache/entity_cache.go:147-377 | main result: over every such run from the empty cache the two-way index is the flat table, and every list is exactly the owned resources |
| EntityIndex.StepTightIff | ci/runners/garm/cache/entity_cache.go:147-293 | main result: no operation leaves a stale ID on a list, except that DeleteEntityPool and DeleteEntityScaleSet do iff another entity lists the ID |
| EntityIndex.ListsAreExact | ci/runners/garm/cache/entity_cache.go:147-293 | main result: over every run that deletes resources only under their owner, the ID set of each cached entity is exactly what it owns |
| EntityIndex.MovedPoolIsListedTwice | ci/runners/garm/cache/entity_cache.go:241-255 | a concrete run: a pool that changes owner stays on the old owner's list |
| GarmCache.EntityCache.SetEntity | ci/runners/garm/cache/entity_cache.go:147-163 | the entity is stored; its ID sets are kept, or empty if it is new |
| GarmCache.EntityCache.ReplaceEntityPools | ci/runners/garm/cache/entity_cache.go:165-195 | the pool index takes one Replace step, all else is unchanged |
| GarmCache.EntityCache.ReplaceEntityScaleSets | ci/runners/garm/cache/entity_cache.go:197-224 | the scale set index takes one Replace step, all else is unchanged |
| GarmCache.EntityCache.DeleteEntity | ci/runners/garm/cache/entity_cache.go:226-239 | the entity goes, with its pools and scale sets |
| GarmCache.EntityCache.SetEntityPool | ci/runners/garm/cache/entity_cache.go:241-255 | the pool index takes one SetItem step, all else is unchanged |
| GarmCache.EntityCache.SetEntityScaleSet | ci/runners/garm/cache/entity_cache.go:257-271 | the same for a scale set |
| GarmCache.EntityCache.DeleteEntityPool | ci/runners/garm/cache/entity_cache.go:273-282 | the pool goes from the table and from the entity's list |
| GarmCache.EntityCache.DeleteEntityScaleSet | ci/runners/garm/cache/entity_cache.go:284-293 | the same for a scale set |
| GarmCache.EntityCache.GetEntityPools | ci/runners/garm/cache/entity_cache.go:343-359 | each listed cached pool once, sorted by creation; if coherent, exactly the pools the entity owns |
| GarmCache.EntityCache.GetEntityScaleSets | ci/runners/garm/cache/entity_cache.go:361-377 | the same for scale sets, sorted by ID |
| GarmCache.EntityCache.FindPoolsMatchingAllTags | ci/runners/garm/cache/entity_cache.go:323-341 | exactly the entity's listed pools that carry the labels, sorted by creation |
| GarmCache.EntityCache.GetEntityForPool | ci/runners/garm/cache/entity_cache.go:73-90 | the cached owner of a cached pool; if coherent, every cached pool has one |
| GarmCache.EntityCache.GetEntityForScaleSet | ci/runners/garm/cache/entity_cache.go:54-71 | the same for a scale set |
| GarmCache.EntityCache.GetPoolByID | ci/runners/garm/cache/entity_cache.go:92-101 | the cached pool of that ID, if any |
| GarmCache.EntityCache.GetScaleSetByID | ci/runners/garm/cache/entity_cache.go:103-112 | the cached scale set of that ID, if any |
| GarmCache.EntityCache.GetEntity | ci/runners/garm/cache/entity_cache.go:126-145 | the stored entity with the credentials its forge's cache holds now, if any |
| GarmCache.EntityCache.UpdateCredentialsInAffectedEntities | ci/runners/garm/cache/entity_cache.go:114-124 | exactly the entities with that credential ID get the credentials; both indexes are unchanged |
| GarmCache.CredentialCache.SetCredentialsRateLimit | ci/runners/garm/cache/credentials_cache.go:45-53 | only the rate limit of a cached credential changes |
| GarmCache.CredentialCache.UpdateCredentialsUsingEndpoint | ci/runners/garm/cache/credentials_cache.go:55-65 | every credential on an endpoint of that name gets it, and every entity with one of their IDs gets the credential |
| GarmCache.CredentialCache.SetCredentials | ci/runners/garm/cache/credentials_cache.go:67-77 | the credential is stored and pushed to the entities with its ID |
| GarmCache.CredentialCache.DeleteCredentials | ci/runners/garm/cache/credentials_cache.go:89-94 | the credential goes; no entity changes |
| GarmCache.CredentialCache.GetCredentials | ci/runners/garm/cache/credentials_cache.go:79-87 | the cached credential of that ID, if any |
| GarmCache.EndpointCache.SetEndpoint | ci/runners/garm/cache/endpoint_cache.go:36-42 | the endpoint is stored and propagated through the Gitea credentials to the entities, and nowhere else |
| GarmCache.EndpointCache.GetEndpoint | ci/runners/garm/cache/endpoint_cache.go:44-53 | the cached endpoint of that name, if any |
| GarmCache.EndpointCache.RemoveEndpoint | ci/runners/garm/cache/endpoint_cache.go:55-60 | the endpoint goes; no credential changes |
| Lists.SortBy | ci/runners/garm/cache/util.go:22-32 | a sorted permutation, which is all that sort.Slice promises |
| CredentialFlow.PushChangesCredentialsOnly | ci/runners/garm/cache/entity_cache.go:114-124 | pushing credentials changes only the credentials of the entities with that ID |
| CredentialFlow.PushAllPushesEach | ci/runners/garm/cache/entity_cache.go:114-124 | pushing several is pushing each |
| CredentialFlow.OnEndpointChangesEndpointOnly | ci/runners/garm/cache/credentials_cache.go:55-65 | an endpoint update changes only the endpoint of the credentials on its name |
| GarmPackage.Caches.Do | ci/runners/garm/cache/credentials_cache.go:122-168 | each exported call acts on the four caches as one step of the runs below |
| GarmPackage.Caches.GetEntity | ci/runners/garm/cache/entity_cache.go:496-498 | the exported GetEntity |
| CredentialFlow.SetCredentialsInStepIff | ci/runners/garm/cache/credentials_cache.go:67-77 | setting credentials keeps every entity on its account's credentials iff no entity uses that ID on another forge |
| CredentialFlow.SetEndpointInStepIff | ci/runners/garm/cache/endpoint_cache.go:36-42 | the same for an endpoint update |
| CredentialFlow.OtherOpsKeepInStep | ci/runners/garm/cache/credentials_cache.go:45-94 | rate limits, deletions, removed endpoints and up-to-date SetEntity calls keep it always |
| CredentialFlow.StepInStep | ci/runners/garm/cache/credentials_cache.go:45-94 | with disjoint credential IDs every proper step keeps all entities in step |
| CredentialFlow.AlwaysInStep | ci/runners/garm/cache/credentials_cache.go:45-77 | main result: with disjoint credential IDs and up-to-date SetEntity calls every entity carries its account's cached credentials up to the rate limit, in all runs |
| CredentialFlow.AlwaysInStepFromStart | ci/runners/garm/cache/credentials_cache.go:45-77 | in particular from the empty caches |
| CredentialFlow.NamesakeOverwrites | ci/runners/garm/cache/entity_cache.go:114-124 | a concrete reachable state: a GitHub credential replaces the Gitea credential of the same ID in an entity |
| CredentialFlow.EndpointReaches | ci/runners/garm/cache/endpoint_cache.go:36-42 | after SetEndpoint an entity carries the endpoint iff its credential ID is cached for Gitea on that name, or it did before |
| CredentialFlow.EndpointReachesGiteaEntities | ci/runners/garm/cache/endpoint_cache.go:36-42 | so every in-step Gitea entity on a cached credential of that endpoint name does |
| CredentialFlow.EndpointStays | ci/runners/garm/cache/endpoint_cache.go:36-42 | main result: with disjoint credential IDs they carry it in all runs until that endpoint name, that account or the entity is set again, or the entity deleted |
| CredentialFlow.GetEntityIsFresh | ci/runners/garm/cache/entity_cache.go:126-145 | GetEntity gives exactly the credentials the forge's cache holds for the entity's ID, the stored ones if it holds none, and the entity otherwise as stored |
| CredentialFlow.RateLimitIsSeen | ci/runners/garm/cache/credentials_cache.go:45-53 | a new rate limit is seen at once by GetEntity on a GitHub account; deleted credentials leave the entity with its own copy |
| CredentialFlow.GetEntityAddsRateLimit | ci/runners/garm/cache/entity_cache.go:126-145 | in step, GetEntity differs from the stored entity in the rate limit only |
| InstanceJoin.InstanceCache.GetAllInstances | ci/runners/garm/cache/instance_cache.go:61-71 | each cached instance once, sorted by creation |
| InstanceJoin.InstanceCache.GetEntityForInstance | ci/runners/garm/cache/instance_cache.go:73-108 | the owner of the scale set, or else of the pool, if cached, with its cached credentials |
| InstanceJoin.InstanceCache.GetEntityInstances | ci/runners/garm/cache/instance_cache.go:138-152 | exactly the cached instances whose pool ID is a listed pool of the entity, sorted by creation |
| InstanceJoin.JoinAgrees | ci/runners/garm/cache/instance_cache.go:73-152 | in a coherent state the two joins agree for instances with a pool and no scale set |
| InstanceJoin.JoinAgreesIff | ci/runners/garm/cache/instance_cache.go:73-152 | main result: for any instance they agree for every entity iff it has no scale set and a pool (or no pool has the empty ID), or its scale set and its pool ID have the same owner |
| InstanceJoin.ScaleSetInstancesAreNotListed | ci/runners/garm/cache/instance_cache.go:138-152 | an instance of a cached scale set without a pool is found by name and listed by no entity |
| InstanceJoin.RunSound | ci/runners/garm/cache/entity_cache.go:147-293 | over every run without a change of owner both indexes stay coherent and share their entities |
| InstanceJoin.InstanceCache.SetInstance | ci/runners/garm/cache/instance_cache.go:37-42 | the instance is stored under its name |
| InstanceJoin.InstanceCache.GetInstance | ci/runners/garm/cache/instance_cache.go:44-52 | the cached instance of that name, if any |
| InstanceJoin.InstanceCache.DeleteInstance | ci/runners/garm/cache/instance_cache.go:54-59 | the instance of that name goes |
| InstanceJoin.JoinAgreesInAllRuns | ci/runners/garm/cache/instance_cache.go:73-152 | main result: the agreement holds in every state reachable without a change of owner |

## Left out

- secp256k1, Keccak, JWT parsing, JSON-RPC, Uphold, HTTP, SQL, Incus and the storage backends: their answers are parameters.
- float64: BAT amounts and backoff seconds are reals; batToWei is not modelled. The truncation of the backoff to whole seconds is.
- Clocks: times are parameters; the backoff's are those of the calls.
- KeyLocker.TokensConserved: the plain field ident is read and written in one atomic step each; the Go memory model's data race on it is not modelled.
- KeyLockerExclusion.MutualExclusion: a client is a thread of the model; handing a key from one goroutine to another is not modelled. Its two provisos are needed: KeyLockerStrangers.StrangerSafeIffNoEntry is about unlocking only what one holds, KeyLockerExclusion.RemovalSafeIffQuiescent about removing only unused keys.
- KeyLocker.StepConserves: nothing is proved about fairness or about which waiter gets a mutex.
- LockOrder.NeverStuck: only the Lock and Unlock operations of the cache calls are kept, and only calls of this package.
- RunnerGates.BootstrapPermanentIff: the database transaction around an update is one step; claimsToContext is a found or missing instance.
- Decimal.ScanPrint: leading white space and the other verbs of Sscanf.
- PortAllocator.FirstFreePort: for a candidate below the range the loop ends iff some port from it up to 59999 is unused; that is its precondition, and for candidates in the range there is none.
- PortAllocator.PortsDistinct: creates and deletes run one after another; envName and two IDs with the same name are not modelled, nor are changes of a device from outside.
- StorageChain.Chain.Put: the backends of a chain are distinct objects.
- RewardLedger.Service.HandlePayout: payouts and queueing run one after another.
- RewardRepeats.PaidAgainIff: rewards queued within the same second as the row in question are not among the later ones; ties are broken the same way every time.
- RewardRuns.PayoutIdempotent: assumes a positive minimum, and no wallet look-up errors or lost updates, as the promise needs; RewardRepeats.PaidAgainIff says what a lost update does.
- RewardRuns.RewardIDInjective: kinds without a dash, which all kinds that the service queues are.
- TransferCall.AddressRoundTrip: strings.ToLower is modelled for ASCII only. In Params it is a parameter.
- Lists.SortBy: sort.Slice is modelled by an insertion; the order of equal keys is left open by the contract, as it is in Go.
- GarmCache.EntityCache.GetEntity: the two mutexes it nests are in LockOrder; the methods themselves are sequential.
- Runner groups, the other list getters, GetEntityPool, GetEntitiesUsingEndpoint, GetEntitiesUsingCredentials, the GitHub client, template and tools caches: single loops or look-ups.
- handleRates, which changes the rates, pipeline artifacts, metrics and the request handlers of the rewards service.
- Stat and Available of the storage chain: the same first-available choice.
- The GARM store, pool manager, supervisor, CLI, configuration and the bandwidth service.
