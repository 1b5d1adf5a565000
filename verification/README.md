# TestTender in Dafny

TestTender answers the Docker and libpod APIs by creating Kubernetes objects. This
project models the parts of it that carry state or translate data, and proves what
they promise for every input, every run and every interleaving. `dafny verify
dfyconfig.toml` checks all of it.

| file | models |
|---|---|
| StreamMux.dfy | the stdout/stderr multiplexer and the log copy loop that feeds it |
| KeySet.dfy, KeyCache.dfy, ServiceAccount.dfy | reading a JWKS, the concurrent key cache, the identity in a token |
| Lifecycle.dfy, Server.dfy | containers and networks as a state machine, and the handlers that refine it |
| Reaper.dfy | the timer loop that removes old containers |
| Naming.dfy, Labels.dfy | ids and Pod names, labels and deletion by label |
| Ports.dfy | exposed, bound and mapped ports, and how they are reported |
| Secrets.dfy | Secret references in labels |
| Exec.dfy, Posix.dfy | wrapping an exec request into one argument vector; directories, `cd` and accounts |
| Channels.dfy | stop and attach channels |
| Archive.dfy | sniffing and reading an archive |
| Basics.dfy, Strings.dfy, Sorting.dfy | shared types, string functions and sorted listings |

Where the code changes things in place the model does too: proxies, the API
database, the verifier, the cluster, ports, channels and readers are classes, and
loops over Go maps take their elements in any order. Beside them stand value-level
machines (`StreamMux.Run`, `KeyCache.Run`, `Lifecycle.Run`, `Reaper.Run`); the
methods are proved to take the machines' steps, and the theorems are about all runs.

## Premises

- StreamMux: a sink write that reports no error takes at least one byte. Results
  about the sink hold until a sink write fails.
- KeyCache: D, the time from fetching a JWKS document to committing it, is bounded.
  The issuer is any function from time to documents. Decoding of key material is an
  input.
- Lifecycle: a handler is one atomic step, since no lock spans one in the code. The
  database returns only stored records and does not fail. New ids are fresh. What a
  Pod looks like and where a start fails are inputs. The network name index is
  unique: saving a network points its name at it. Orphans are counted in Pods.
- Reaper: a pass takes at most a given time.
- Naming: the database's short-id index finds every stored container.
- Ports: the operating system hands out no port that is held or mapped already.
- Labels: objects without an owner carry none of the three system labels.
- Secrets: Kubernetes' name rules are parameters, so the results hold for any rules.
- Exec: the tools in the image behave as POSIX `env`, `sh` and `cd` and the usual
  `gosu`, `su-exec`, `setpriv` and `runuser`. Which tools, directories, accounts and
  groups there are is an input. Account and group names are not numbers, and no path
  goes through a symbolic link. An assignment in the shell reaches a later command
  exactly if the variable came in from the environment. `cd` with an empty HOME or
  OLDPWD fails.
- Channels: add and signal are atomic, and callers add channels they have just made
  with room for one value, as all of them do.
- Strings are byte strings, as in Go.

## What is not as one would expect

Each of these is a property that fails for some inputs. The code is modelled as it
is, a lemma shows the failure, and another says exactly when the property holds.

- Automatic flushing: the delayed flush leaves its flag set when it finds an empty
  buffer, and later bytes without a newline then wait for an explicit Flush
  (`StaleRun`, `GoesStale`, `StaleForever`).
- A log read that returns data together with EOF loses that data, and without
  following, an empty read ends the copy (`LostLogs`, `WholeLogIff`).
- Whether a JWKS document is accepted can depend on the order of its entries
  (`OrderMatters`, `OrderIndependentIff`).
- Starting a stopped or killed container, or restarting one, can fail with its Pod left
  up, in creating services or reading the address; removing the container then leaks
  the Pod (`LeakingRun`, `StepSafeIff`, `LeaksIff`).
- User labels that sanitise to the same key get a value that depends on map order
  (`CollidingLabels`, `DeterminedIff`).
- A container literally named like another's Pod hides it from lookups by Pod name
  (`HiddenByName`, `FoundByPodName`).
- An exec command whose first word contains `=` is changed when it directly follows
  environment entries, and so is one that begins with `--` when the shell's `exec` or
  `setpriv` comes last; variables named like the wrapper script's own are overwritten; a
  working directory that `cd` takes for `-`, an option or a CDPATH entry is not the one
  asked for; and a numeric user without a passwd entry depends on the helper
  (`FirstWordLost`, `DashesDropped`, `UserVariableReplaced`, `DirectoryDiverted`,
  `NumberNotSwitched`, `GroupKept`, `MeaningPreservedIff`).
- The sniff ignores how much its first read returned, so a short one puts padding
  into the archive (`NewReader`).
- A request accepted at create can fail at start if the Pod template uses the reserved
  volume name (`CreateThenStart`).

The comment on `Write` in internal/util/ioproxy/ioproxy.go speaks of a maximum buffer
size; the code has none, and the model follows the code.

## Model

| member | source | states |
|---|---|---|
| `StreamMux.DecodeInvertsEncode` | internal/util/ioproxy/ioproxy.go:90-104 | A client decodes the frames back exactly if and only if no payload overflows the 32-bit length field |
| `StreamMux.EncodeCarries` | internal/util/ioproxy/ioproxy.go:90-104 | On the wire each frame is its stream byte, three zero bytes, the length in four bytes with the most significant first, and the payload |
| `StreamMux.LinesOfSplit` | internal/util/ioproxy/ioproxy.go:76-87 | The complete lines and the remainder found in a byte string do not depend on where it was cut |
| `StreamMux.RunConserves` | internal/util/ioproxy/ioproxy.go:47-117 | After every interleaving of Write, Flush and delayed flushes by both proxies: per stream, payloads sent followed by the buffer are exactly the bytes written; no buffer holds a newline; every frame is non-empty with a newline only as its last byte |
| `StreamMux.OnTheWire` | internal/util/ioproxy/ioproxy.go:15-22 | For every run, the payloads of the frames with stream byte 1 followed by the stdout buffer are what was written to stdout, those with 2 and the stderr buffer what was written to stderr, and there are no other frames; byte 10 only ends a frame |
| `StreamMux.SinkDecodes` | internal/util/ioproxy/ioproxy.go:47-117 | At every lock release the sink decodes completely into the frames sent if and only if they fit the length field, which fewer than 2^32 bytes per stream ensure |
| `StreamMux.FlushedDemux` | internal/util/ioproxy/ioproxy.go:107-117 | After a Flush of a stream the client demultiplexes everything written to it, whatever the other stream did |
| `StreamMux.ExecDemux` | internal/backend/exec.go:47-57 | When an exec is over, each stream flushed, with delayed flushes before, between and after, the client demultiplexes everything written to either stream |
| `StreamMux.SplitInvariant` | internal/util/ioproxy/ioproxy.go:47-61 | Write(a) then Write(b) sends the same frames and buffers the same bytes as Write(a+b), in any state |
| `StreamMux.GoesStale` | internal/util/ioproxy/ioproxy.go:107-117 | A proxy's flusher flag goes stale exactly when its last delayed flush finds an empty buffer while the flag is set; until then buffered bytes have a flush pending |
| `StreamMux.StaleForever` | internal/util/ioproxy/ioproxy.go:53-59 | Once stale, no step but an explicit Flush clears the flag, and bytes without a newline stay buffered |
| `StreamMux.StaleRun` | internal/util/ioproxy/ioproxy.go:107-112 | A run that ends with a buffered byte, the flag set and no flush pending |
| `StreamMux.IoProxy.constructor` | internal/util/ioproxy/ioproxy.go:35-42 | A new proxy is idle |
| `StreamMux.IoProxy.WriteAll` | internal/util/ioproxy/ioproxy.go:63-72 | Every byte reaches the sink, in order, for any pattern of short writes, unless a write fails |
| `StreamMux.IoProxy.WriteFrame` | internal/util/ioproxy/ioproxy.go:90-104 | The sink gains exactly the encoded frame unless a write fails |
| `StreamMux.IoProxy.Process` | internal/util/ioproxy/ioproxy.go:76-87 | Sends and removes exactly the first complete line, or returns 0 and changes nothing when there is none |
| `StreamMux.IoProxy.Drain` | internal/util/ioproxy/ioproxy.go:51-52 | Calling process until it returns 0 sends all complete lines and leaves the remainder |
| `StreamMux.IoProxy.Write` | internal/util/ioproxy/ioproxy.go:47-61 | Takes the machine's write step; the sink gains the frames of the completed lines |
| `StreamMux.IoProxy.Flush` | internal/util/ioproxy/ioproxy.go:107-117 | Takes the machine's flush step, including the early return that keeps the flag |
| `StreamMux.IoProxy.Fire` | internal/util/ioproxy/ioproxy.go:55-58 | A delayed flush takes the machine's timer step |
| `StreamMux.Perform` | internal/backend/exec.go:47-57 | One call on either of two proxies sharing a sink is one step of the machine |
| `StreamMux.Drive` | internal/backend/exec.go:47-57 | Every sequence of calls, for every pattern of short writes: until a sink write fails, the sink holds the machine's frames, laid out on the wire as stated above if they fit, and the proxies are in the machine's state |
| `Logs.GetLogs` | internal/backend/logs.go:29-95 | The copy loop performs exactly the proxy operations of its reads, and flushes when it returns; it returns exactly when an ending event occurs |
| `Logs.LogsDemultiplex` | internal/backend/logs.go:29-95 | For every chunking and every moment a delayed flush runs, the client demultiplexes exactly the bytes read before the loop ended |
| `Logs.WholeLogIff` | internal/backend/logs.go:65-92 | For any reads and delayed flushes up to EOF: the log is copied whole if and only if the read that reports EOF carries no data and, unless following, no data comes after an empty read |
| `Logs.EndedEarly` | internal/backend/logs.go:65-81 | A stop while following, or a read error, ends the copy at once with everything read before it copied |
| `Logs.LostLogs` | internal/backend/logs.go:75-87 | A log byte lost behind an empty read, and one lost with EOF |
| `KeySet.ParseKeySet` | internal/auth/oidc.go:487-527 | The loop computes the left-to-right reading of the document |
| `KeySet.ParsedIff` | internal/auth/oidc.go:487-527 | A document is accepted if and only if it is well formed (ids present, material decodes, no accepted id repeated later, one supported key), and the key set then holds exactly its supported signing keys under their ids |
| `KeySet.ParsedSupports` | internal/auth/oidc.go:487-527 | In the document's own terms: a key id has a record exactly if a signing entry of that id, of type RSA or EC with material that decodes and no or a permitted algorithm, gives it |
| `KeySet.RejectedIff` | internal/auth/oidc.go:487-527 | A document is rejected exactly if a signing entry has no id, has material that does not decode, or repeats the id of a supported one before it, or if none is supported |
| `KeySet.OrderMatters` | internal/auth/oidc.go:487-527 | Two entries that are accepted in one order and rejected in the other |
| `KeySet.OrderIndependentIff` | internal/auth/oidc.go:487-527 | A well-formed document gives the same result in every order of its entries if and only if no accepted entry shares its id with another signing entry |
| `KeySet.OneAlgorithmPerKey` | internal/auth/oidc.go:381-404 | A key of a parsed set is handed out for at most one algorithm, a permitted one, and for that one unless its entry names another |
| `KeySet.CheckIff` | internal/auth/oidc.go:381-404 | RSA keys are for RS256, P-256, P-384 and P-521 for ES256, ES384 and ES512, and an algorithm named in the entry has to agree |
| `KeyCache.ApplyKeepsInv` | internal/auth/oidc.go:351-456 | Every step of every caller keeps the invariant: the cache is a document the issuer served, committed within the bound, one caller in the refresh mutex, and per-caller facts |
| `KeyCache.RunKeepsInv` | internal/auth/oidc.go:351-456 | The invariant holds after every interleaving from construction |
| `KeyCache.BoundedStaleness` | internal/auth/oidc.go:351-456 | A completed call answers as the issuer's document did at some time later than W + D before the call began, where W is RefreshInterval for a key that is found and 30s for one that is not |
| `KeyCache.WithdrawnNeverReturned` | internal/auth/oidc.go:351-379 | In any interleaving, a key withdrawn at t is not returned by a call starting at or after t + D + RefreshInterval, nor one clock unit before |
| `KeyCache.PublishedNeverUntrusted` | internal/auth/oidc.go:371-377 | A key id published from t on is not called untrusted by a call starting at or after t + D + 30s, nor one clock unit before |
| `KeyCache.StalenessTight` | internal/auth/oidc.go:364-366 | The first bound is exact: for every issuer and configuration, a run returns the key to a call one clock unit earlier still |
| `KeyCache.UntrustedTight` | internal/auth/oidc.go:410-419 | So is the second: a run turns a call one clock unit earlier away |
| `KeyCache.FailureHasCause` | internal/auth/oidc.go:429-449 | In every run, a call fails only because one of its caller's fetches did not reach the issuer or got a document that is rejected |
| `KeyCache.NeverFails` | internal/auth/oidc.go:406-456 | With an issuer that is always reached and always serves an acceptable document, no call fails |
| `KeyCache.RefreshAnswers` | internal/auth/oidc.go:359-378 | An undisturbed call past its delay commits the document of the time it fetched, at or after its start, and answers from it |
| `KeyCache.CommitRate` | internal/auth/oidc.go:406-456 | Commits are at least min(RefreshInterval, 30s) apart, so a window of length W holds at most W/min + 1 |
| `KeyCache.CacheChangesTogether` | internal/auth/oidc.go:429-456 | Keys, lastRefresh and the commit history change only together, by a commit of what was fetched; a failed refresh changes none |
| `KeyCache.Verifier.constructor` | internal/auth/oidc.go:137-166 | A verifier exists after a first successful refresh, in an initial state of the step system |
| `KeyCache.Verifier.ReadCache` | internal/auth/oidc.go:359-362 | The read-locked section is one step; record and time are read together |
| `KeyCache.Verifier.UseCached` | internal/auth/oidc.go:364-366 | The comparison with RefreshInterval is one step and decides between answer and refresh |
| `KeyCache.Verifier.Acquire` | internal/auth/oidc.go:407-408 | Enters only when nobody holds the refresh mutex |
| `KeyCache.Verifier.TooSoon` | internal/auth/oidc.go:410-419 | Compares the last refresh with the delay for known or unknown keys; two steps with any others between |
| `KeyCache.Verifier.FetchKeys` | internal/auth/oidc.go:429-449 | Gives exactly the keys of the document served at that time, and fails exactly if the issuer is not reached or the document is rejected; a failure changes no key |
| `KeyCache.Verifier.Store` | internal/auth/oidc.go:451-454 | Commits the fetched keys and the time together |
| `KeyCache.Verifier.RefreshLocked` | internal/auth/oidc.go:429-456 | The fetch and commit steps with any steps of others between |
| `KeyCache.Verifier.RefreshIfAllowed` | internal/auth/oidc.go:406-421 | The refresh steps in order, releasing the mutex on every way out |
| `KeyCache.Verifier.ReadAgain` | internal/auth/oidc.go:371-378 | The second lookup is one step; a missing key is untrusted |
| `KeyCache.Verifier.LookUp` | internal/auth/oidc.go:351-379 | The whole call, with arbitrary steps of the clock and other callers between its sections, is a run of the step system ending in the answer returned; a failed refresh has its cause during the call, and no answer means that the caller is held up |
| `KeyCache.Verifier.KeyForToken` | internal/auth/oidc.go:359-378 | The answer reflects the issuer's document at some time no later than the return and later than its window and D before the call, whatever the interference; the invariant is kept |
| `KeyCache.Verifier.KeyForHeader` | internal/auth/oidc.go:351-379 | The whole of keyForToken: a missing or blank key id is turned away without a step; a key is handed out only for its algorithm and only if the issuer had offered it under the trimmed id, later than RefreshInterval + D before the call; untrusted only if a document later than 30s + D before the call lacked it; failure only with a cause during the call |
| `ServiceAccount.IdentityIff` | internal/auth/oidc.go:333-349 | An identity is accepted if and only if the subject is exactly system:serviceaccount:<namespace>:<account> with two non-empty colon-free parts and both claims agree |
| `Lifecycle.StatusKeeps` | internal/backend/deploy.go:439-489 | A status poll sets only times, exit code and OOM flag, never clears a time, and never reports failure without an error |
| `Lifecycle.PollTells` | internal/backend/deploy.go:439-489 | The first conclusive status of the main container decides: exit code, OOM flag and times are those of its termination, or of its last one when it is not terminated; else restarts and ImagePullBackOff fail; else it runs, with its start time. Without one the Pod is pending or failed |
| `Lifecycle.UpdateTells` | internal/server/routes/common/util.go:82-102 | A status update leaves a completed or rate-limited container alone; else it marks a failed poll and ends the container when the poll says so, finished now if no time is given |
| `Lifecycle.WaitReports` | internal/server/routes/docker/containers.go:188-211 | A wait on a container that is not completed answers the code its main container terminated with |
| `Lifecycle.StartTells` | internal/server/routes/common/util.go:38-50 | A successful start is completed or running as its Pod is, with the times the Pod gives, and the present where it gives none |
| `Lifecycle.UpIff` | internal/backend/deploy.go:444-472 | A Pod counts as up exactly if its deciding status has terminated or runs without a restart |
| `Lifecycle.LeftoverIff` | internal/backend/deploy.go:186-203 | A failing start leaves its Pod exactly when the Pod came up and creating services or reading the address failed |
| `Lifecycle.Creates` | internal/server/routes/docker/containers.go:49-130 | A new container is neither running nor over, is made now, and is on the networks resolved for it |
| `Lifecycle.AttachmentsIff` | internal/server/routes/docker/containers.go:87-117 | Those are exactly the networks of the mode and the endpoints, or the bridge if none is named; an unknown one fails the request |
| `Lifecycle.HaltsContainer` | internal/server/routes/common/containers.go:99-179 | After a stop or a valid kill the flag is set, the container is neither running nor completed, and its Pod has had a delete; other signals change nothing |
| `Lifecycle.ConnectsNetwork` | internal/server/routes/docker/networks.go:127-194 | Connecting and disconnecting change exactly the one attachment of the one container |
| `Lifecycle.MakesNetwork` | internal/server/routes/docker/networks.go:75-94 | A new network is found under its id and its name |
| `Lifecycle.DeletesNetwork` | internal/server/routes/docker/networks.go:99-122 | A network goes exactly when it is not predefined and no container is attached to it |
| `Lifecycle.Reaps` | internal/reaper/container.go:12-31 | A pass takes exactly the records older than a positive keepMax, and their Pods |
| `Lifecycle.StartConsistent` | internal/server/routes/common/util.go:16-51 | A successful start leaves the container running or completed, never both, and neither stopped nor killed; a failed one keeps those flags; the record stays consistent |
| `Lifecycle.RunConsistent` | internal/server/routes/common/containers.go:24-213 | Over every run: running implies not completed, stopped or killed and a start time; completed implies a finish time |
| `Lifecycle.CompletedStays` | internal/server/routes/common/util.go:82-102 | Once completed, after any run without a stop, kill or restart of it, the record is as it was but for its networks, or gone, and gone exactly if a step removed it |
| `Lifecycle.RepeatedWaitsAgree` | internal/server/routes/docker/containers.go:188-211 | Two waits with any such run between them report the same exit code, unless the container was removed in between |
| `Lifecycle.StartFlags` | internal/backend/deploy.go:48-203 | A start succeeds if and only if its Pod is up and nothing fails; a failed one keeps the stopped and killed flags |
| `Lifecycle.StepSafeIff` | internal/server/routes/common/containers.go:24-213 | Safe means that stopped or killed implies a delete issued since the Pod was last brought up, and that every Pod without a delete has a record. From a safe state a step leads to a safe one if and only if it is no hazard: no start of a stopped or killed container, and no restart, that fails in creating services or reading the address with its Pod up |
| `Lifecycle.RunSafeIff` | internal/server/routes/common/containers.go:24-213 | A run stays safe throughout if and only if none of its steps is a hazard |
| `Lifecycle.RunSafe` | internal/server/routes/common/containers.go:50-179 | Every run without a hazard ends safe |
| `Lifecycle.NeverOrphansIff` | internal/server/routes/docker/containers.go:216-240 | From a state without orphans, no hazard-free run ever makes one if and only if every stopped or killed container has had its Pod deleted |
| `Lifecycle.LeaksIff` | internal/backend/deploy.go:186-203 | From a safe state, a start, attach or restart followed by removal orphans a Pod if and only if it was a hazard |
| `Lifecycle.LeakingRun` | internal/server/routes/common/util.go:26-30 | A leaking run from a fresh database: create, start, stop, a start that cannot read the address, remove |
| `Lifecycle.RunNetworks` | internal/server/routes/docker/networks.go:75-240 | Over every run each attached network is stored, the name index points at a stored network of that name, and the predefined names stay |
| `Lifecycle.Reachable` | internal/model/database.go:118-122 | All of these from a fresh database; bridge, host and null always resolve |
| `Server.Api.constructor` | internal/model/database.go:118-122 | A fresh database is an initial state |
| `Server.Api.FindNetwork` | internal/model/database.go:284-305 | Id first, then name |
| `Server.Api.ConnectAll` | internal/server/routes/docker/containers.go:87-108 | All references resolve to their set of networks, or the first missing one fails the request |
| `Server.Api.FindAttachments` | internal/server/routes/docker/containers.go:87-117 | Network mode and endpoints, or bridge when there are none |
| `Server.Api.ContainerCreate` | internal/server/routes/docker/containers.go:87-130 | Takes the Create step; 201 exactly when the networks resolve |
| `Server.Api.ContainerStart` | internal/server/routes/common/containers.go:24-43 | Takes the Start step; 204 only with the container running or completed |
| `Server.Api.DeployRecord` | internal/backend/deploy.go:48-62 | The backend start; the Pod is deleted exactly on DeployFailed, and no error means running or completed |
| `Server.Api.StartRecord` | internal/server/routes/common/util.go:16-51 | Takes the start step on the record; success means running or completed |
| `Server.Api.PollStatus` | internal/server/routes/common/util.go:82-102 | One status update of a record, as the machine defines it |
| `Server.Api.ContainerRestart` | internal/server/routes/common/containers.go:50-92 | Takes the Restart step |
| `Server.Api.ContainerStop` | internal/server/routes/common/containers.go:99-128 | Takes the Stop step: one delete at most |
| `Server.Api.ContainerKill` | internal/server/routes/common/containers.go:135-179 | Takes the Kill step: unknown signals change nothing |
| `Server.Api.ContainerAttach` | internal/server/routes/common/containers.go:186-213 | Takes the Attach step: starts a container that is not up |
| `Server.Api.ContainerDelete` | internal/server/routes/docker/containers.go:216-240 | Takes the Delete step; the record is gone |
| `Server.Api.ContainerWait` | internal/server/routes/docker/containers.go:188-211 | One turn takes the Observe step and answers the exit code exactly when the container is over; that of the deciding status if it has terminated |
| `Server.Api.CleanContainers` | internal/reaper/container.go:12-31 | For any table order, removes exactly the records older than keepMax, a delete issued for each |
| `Server.Api.NetworksCreate` | internal/server/routes/docker/networks.go:75-94 | Takes the NetCreate step; 201, or 500 for an empty name, which cannot be indexed |
| `Server.Api.ContainersInNetwork` | internal/server/routes/docker/networks.go:225-240 | Exactly the containers attached to the network, for any table order |
| `Server.Api.NetworksDelete` | internal/server/routes/docker/networks.go:99-122 | 204 exactly for a stored network that is neither predefined nor in use, 404 exactly for an unknown one, else 403; otherwise nothing changes |
| `Server.Api.DropOne` | internal/model/database.go:355-357 | The network and its name go, and nothing else |
| `Server.Api.NetworksConnect` | internal/server/routes/docker/networks.go:127-159 | Takes the Connect step; 404 exactly when the network or container is unknown, else 201 |
| `Server.Api.NetworksDisconnect` | internal/server/routes/docker/networks.go:164-194 | Takes the Disconnect step; 404, 500 for a predefined network, 404 if not attached, else 204, in that order |
| `Server.Api.NetworksPrune` | internal/server/routes/docker/networks.go:199-221 | For any table order, removes exactly the networks that are neither predefined nor in use, and reports exactly their names |
| `Reaper.ApplyKeepsInv` | internal/reaper/main.go:60-91 | Every step of the timer loop and of the API keeps the timing invariant of passes and records |
| `Reaper.RunKeepsInv` | internal/reaper/main.go:60-91 | It holds after every run |
| `Reaper.NoRecordLingers` | internal/reaper/main.go:60-91 | No record is ever older than keepMax + 1 minute + 2 pass times, plus one period per pass that gave up on a database error |
| `Reaper.OnlyOldRemoved` | internal/reaper/container.go:12-31 | In every run a record is removed only by the API or by a check that finds it older than keepMax |
| `Reaper.DisabledNeverReaps` | internal/reaper/main.go:81-84 | With keepMax <= 0 the stored records are exactly those the API inserted and did not remove |
| `Naming.GenerateRandomID` | internal/util/stringid/stringid.go:40-55 | The id is the hex form of the first draw whose twelve-digit short form has a letter in it; it fails only if there is none |
| `Naming.HexEncodeAt` | internal/util/stringid/stringid.go:46 | Two lower-case hex digits per byte, the high one first |
| `Naming.TruncateIDIs` | internal/util/stringid/stringid.go:29-37 | What follows the first colon, or all, cut to twelve |
| `Naming.PodNameIsLabel` | internal/model/types/container.go:244-263 | For every name and prefix the Pod name is a lowercase DNS label of at most 45 characters ending in the short id, set off by a hyphen |
| `Naming.PodNamePlain` | internal/model/types/container.go:244-263 | A prefix and name that need no change are joined by a hyphen, cut to 32, and followed by a hyphen and the short id |
| `Naming.UnderscoresAreHyphens` | internal/model/types/container.go:251 | Underscores in the name count as hyphens |
| `Naming.ForbiddenDropped` | internal/model/types/container.go:252-253 | Any other character that is not permitted is as if it were not there |
| `Naming.MergePair` | internal/model/types/container.go:258 | The leftmost pair of hyphens becomes one, and the rest is treated alike |
| `Naming.PodNamesDistinct` | internal/model/types/container.go:244-263 | Distinct short ids give distinct Pod names, whatever the names and prefixes |
| `Naming.FoundByIds` | internal/model/database.go:126-181 | A stored container is found under its id and its short id; any other text is looked up as a name |
| `Naming.FoundByPodName` | internal/model/database.go:126-181 | A stored container is found under its Pod name if and only if no other container is literally so named or the Pod name is just the short id |
| `Naming.HiddenWhenNamed` | internal/model/database.go:126-181 | The failing family: a container named like another's Pod is found instead |
| `Naming.HiddenByName` | internal/model/database.go:126-181 | A database in which that happens |
| `Labels.ReplaceValueWithPatterns` | internal/backend/util.go:30-42 | Applies the patterns in turn, cutting to 63 after each, with the default for an empty result |
| `Labels.ReplacedIsClean` | internal/backend/util.go:30-42 | Every result has at most 63 permitted characters and begins and ends in a letter or digit |
| `Labels.FixedIffClean` | internal/backend/util.go:30-42 | A string is left alone if and only if it is clean; sanitising twice is sanitising once |
| `Labels.Sanitisers` | internal/backend/util.go:14-28 | Both for keys and values; names are clean and never empty |
| `Labels.Sanitised` | internal/backend/util.go:30-42 | A string of at most 63 characters that begins and ends in a letter or digit loses exactly what is not permitted; letters and digits are cut to 63 |
| `Labels.NamelessIs` | internal/backend/util.go:26-28 | A string without a letter or digit becomes undef as a name, and empty as a key or value |
| `Labels.ClassesAre` | internal/backend/util.go:14-28 | The permitted characters of keys, values and names |
| `Labels.GetLabels` | internal/backend/deploy.go:374-399 | For every template, default and user labels and any map order, also where user keys sanitise onto system keys: the managed, instance-id and container-id labels are the true ones, the rest come from user, default and template labels in that precedence |
| `Labels.LabelIs` | internal/backend/deploy.go:374-399 | Which value a key has: the system's under the three literal keys, else that of a user label that sanitises to it, else the default, else the template's, else none |
| `Labels.DeterminedIff` | internal/backend/deploy.go:374-399 | The labels are the same for every map order if and only if user keys that sanitise alike, system keys apart, have values that sanitise alike |
| `Labels.CollidingLabels` | internal/backend/deploy.go:374-399 | Two user labels that fall together, and two different results for them |
| `Labels.Cluster.Create` | internal/backend/deploy.go:374-399 | A created object carries its owner's true labels; all other objects are untouched |
| `Labels.Cluster.DeleteKind` | internal/backend/delete.go:195-242 | Deletes matching objects of one kind only, all of them unless a call fails |
| `Labels.Cluster.DeleteSelected` | internal/backend/delete.go:58-76 | All three kinds are tried; only matching objects go |
| `Labels.Cluster.DeleteContainer` | internal/backend/delete.go:58-76 | Only objects of that short id go, and without an API error exactly they do |
| `Labels.Cluster.DeleteWithInstanceID` | internal/backend/delete.go:37-55 | Only objects of that instance go, and without an API error exactly they do |
| `Labels.Cluster.DeleteAll` | internal/backend/delete.go:16-34 | Only managed objects go, and without an API error exactly they do |
| `Ports.Container.AddHostPort` | internal/model/types/container.go:306-330 | Binds the parsed port under the host port, or under the negated container port when none is given; errors change nothing |
| `Ports.TCPPortIff` | internal/model/types/container.go:386-399 | A text denotes port n exactly if it is a number n alone or followed by /tcp |
| `Ports.AtoiIs` | internal/model/types/container.go:386-399 | Digits with or without a sign are their number |
| `Ports.AtoiRejects` | internal/model/types/container.go:386-399 | Any other character makes it no number |
| `Ports.Container.GetContainerTCPPorts` | internal/model/types/container.go:334-382 | Exactly the exposed TCP ports, for any map order |
| `Ports.Container.MapContainerTCPPorts` | internal/backend/util.go:57-84 | Adds exactly one fresh mapping per distinct exposed port that was not served, keeps all earlier ones, releases every listener, changes nothing when all are served, and on an error has done part of it |
| `Ports.MapTwice` | internal/backend/util.go:57-84 | Mapping is idempotent, and repeating a call that failed half way completes it |
| `Ports.AddPorts` | internal/server/routes/docker/containers.go:417-437 | Files exactly the non-negative sources under their destinations, for any map order |
| `Ports.Distinct` | internal/server/routes/docker/containers.go:355-368 | Each port once |
| `Ports.NetworkSettingsPorts` | internal/server/routes/docker/containers.go:349-371 | With a host address, reports for each container port exactly the non-negative host ports mapped to it, each once; without one, nothing |
| `Ports.ReportsAgree` | internal/server/routes/libpod/containers.go:322-394 | Any two such reports, from either copy of the code and for any map orders, list the same ports |
| `Ports.EveryPortReported` | internal/server/routes/docker/containers.go:349-371 | After mapping, every exposed port is reported with a positive host port |
| `Secrets.New` | internal/policy/secret/env.go:128-141 | Accepted if and only if every non-blank name is valid; allows exactly the trimmed non-blank names |
| `Secrets.EnvVars` | internal/policy/secret/env.go:146-187 | The loop computes a function of the label map, so no iteration order shows, errors included |
| `Secrets.ParseReferenceIff` | internal/policy/secret/env.go:189-204 | A reference gives an entry exactly if, trimmed, it is the secret, a colon and the key, both non-empty, the secret without a colon, both valid, and the Secret allowed |
| `Secrets.Error1` | internal/policy/secret/env.go:165-176 | Which error a label is turned away with |
| `Secrets.ErrorIs` | internal/policy/secret/env.go:146-187 | More than 32 labels are too many; otherwise the error is that of the least failing label |
| `Secrets.TranslateIff` | internal/policy/secret/env.go:40-204 | Translation succeeds if and only if there are at most 32 labels with the literal prefix and each names a valid target and, by its text, an allowed Secret and a key; the entries then stand one to one for the labels, in ascending order of distinct names, disjoint from ordinary names |
| `Secrets.Collect` | internal/policy/secret/env.go:40-78 | The file loop groups the entries by Secret; the duplicate-filename branch cannot be reached |
| `Secrets.Files` | internal/policy/secret/env.go:40-104 | One source per Secret, ascending, holding that Secret's entries in order; errors are those of the translation |
| `Secrets.FilesPartition` | internal/policy/secret/env.go:80-91 | The sources partition the file references: each exactly once, none empty, at most 32 in one, by ascending file name, only allowed Secrets |
| `Secrets.Validate` | internal/policy/secret/env.go:108-114 | Succeeds if and only if both translations do |
| `Secrets.CreateThenStart` | internal/backend/deploy.go:95-117 | A container accepted at create has its references translated at start for the same labels, allowlist and environment names, except exactly when it asks for files and the Pod template has taken the reserved volume name |
| `Exec.PrepareExecCommand` | internal/backend/exec.go:102-130 | Accepts exactly the valid requests, reports which check failed and the first bad entry, and returns the wrapped vector |
| `Exec.ValidUserIff` | internal/backend/exec.go:66 | A user is one part, or two joined by a colon, of the permitted characters |
| `Exec.ValidEntryIff` | internal/backend/exec.go:65 | An entry is a name of the permitted characters, =, and any value, without NUL |
| `Exec.EnvironmentIs` | internal/backend/exec.go:121-129 | What env makes of the entries: a name has the value of its last entry, and one without an entry keeps the value it had |
| `Exec.EnvLayer` | internal/backend/exec.go:117-129 | The env layer sets exactly the entries and runs the rest, unless the first command word has an = in it |
| `Posix.StraightIff` | internal/backend/exec.go:72-74 | The script's cd leads to the directory the word names if and only if the word is neither - nor option-like and CDPATH does not find it elsewhere first, or these lead to the same place |
| `Posix.WhoOfIs` | internal/backend/exec.go:76-92 | Whom a name, with or without a group, denotes, by the accounts and groups of the image |
| `Exec.ScriptLayer` | internal/backend/exec.go:69-96 | The script and its helper run the words of the command as the user asked for, where cd led, with the script's variables overlaid, or nothing runs; what runs is left open only if the first word is an option to exec or setpriv |
| `Exec.ChainRuns` | internal/backend/exec.go:64-130 | The same of the whole chain of execs, entries included |
| `Exec.OnlyTheCommandRuns` | internal/backend/exec.go:64-130 | Unless the first word is option-like and exec or setpriv comes last, nothing but the requested command ever runs, and never as another user; the group is the requested one unless the user has neither entry nor group |
| `Exec.RunsAsUserIff` | internal/backend/exec.go:75-95 | With a user asked for, words of the command run if and only if the container is root, user and group exist, a helper is there that takes them, the directory is reached, and words are left behind a leading --; only an option to setpriv leaves open what runs |
| `Exec.MeaningPreservedIff` | internal/backend/exec.go:64-130 | For every image and context: the chain of execs ends in the requested command with exactly the requested environment, directory and user if and only if Preserved holds: no = in a first word directly behind entries; a straight cd; a helper that can switch, and a settled group; no option-like first word where exec or setpriv comes last; no inherited variable of the script's with another value. The environment is then, name by name, that of the last entries over the old one |
| `Exec.FirstWordLost` | internal/backend/exec.go:117-129 | The failing family: a first word with = directly behind entries becomes a variable and the next word is run |
| `Exec.DashesDropped` | internal/backend/exec.go:88-96 | The failing family: exec and setpriv drop a leading -- and the next word is run |
| `Exec.DashesInput` | internal/backend/exec.go:96 | An input for it |
| `Exec.UserVariableReplaced` | internal/backend/exec.go:69-71 | The failing family: an inherited variable named user is replaced by the script's |
| `Exec.DirectoryDiverted` | internal/backend/exec.go:72-74 | The failing families of cd: - leads to OLDPWD, an option alone to HOME, and the first CDPATH entry that has the operand goes before the current directory |
| `Exec.NumberNotSwitched` | internal/backend/exec.go:81-92 | The failing family: a user id without a passwd entry can be asked for, and setpriv and runuser refuse it |
| `Exec.GroupKept` | internal/backend/exec.go:76-80 | The failing family: gosu and su-exec run a user id that has neither entry nor group in the group of the container's process |
| `Exec.Misplaced` | internal/backend/exec.go:72-74 | Inputs for each cd family: the directory is there and the command runs in another |
| `Exec.NumberRefused` | internal/backend/exec.go:81-89 | An input for the refused user id |
| `Exec.NumberInOtherGroup` | internal/backend/exec.go:76-80 | An input for the kept group |
| `Exec.NotPreserved` | internal/backend/exec.go:64-130 | Inputs for the lost word, the replaced variable and a container that is not root |
| `Channels.Container.AddStopChannel` | internal/model/types/container.go:495-500 | Appends an unused channel, keeping the lists distinct and unused |
| `Channels.Container.SignalStop` | internal/model/types/container.go:503-509 | Every listed channel gets one value and is closed; the list is empty after; attach channels are untouched |
| `Channels.Container.AddAttachChannel` | internal/model/types/container.go:513-518 | Appends an unused channel, keeping the lists distinct and unused |
| `Channels.Container.SignalDetach` | internal/model/types/container.go:521-528 | Every listed channel gets one value and is closed; the list is empty after; stop channels are untouched |
| `Channels.Drive` | internal/model/types/container.go:495-528 | For every sequence of adds, signals and receives: a channel has got exactly one value and been closed if its kind was signalled after it was added, and is unused otherwise; no send blocks or panics and nothing is closed twice |
| `Archive.ConcatReader.constructor` | internal/util/tar/concatreader.go:15-17 | Nothing read yet; the contents are the slice and what the reader has left |
| `Archive.ConcatReader.Read` | internal/util/tar/concatreader.go:19-28 | Delivers the next bytes of the contents, none lost or repeated, for any short reads below; EOF only at their end; progress while the slice lasts |
| `Archive.ReadAll` | internal/util/tar/concatreader.go:19-33 | Any sequence of reads delivers a prefix of the contents, all of it at EOF, ReadBytes counts it, and it fails exactly if a read does |
| `Archive.NewReader` | internal/util/tar/reader.go:23-54 | No reader exactly if the first read fails, EOF not being a failure; else the result reads as the archive if and only if that read gave all five bytes, and is longer by the missing ones otherwise; the compression is judged on the five bytes |
| `Archive.DetectIff` | internal/util/tar/tar.go:191-205 | The leading bytes of gzip, xz and bzip2 |
| `Archive.Extract` | internal/util/tar/reader.go:23-54 | With a full first read, sniffing and reading loses and adds nothing, whatever the later reads do; it fails exactly if a read does |

## Left out

- The Kubernetes client, port forwarding, the reverse proxy, HTTP routing, flags and
  configuration: I/O or library code.
- Signature checks, decoding of keys and JSON, HTTP fetching, the allowlists of
  subjects and namespaces: library code or single set lookups.
- Interleavings inside one API handler, and races on single fields.
- Renaming containers, exec and image records, events, filters, image names, resource
  limits, volumes and archives copied into containers.
- `GetServicePorts` and the Service objects built from it: with both `n` and `-n`
  bound, the result depends on map order.
- `DeleteOlderThan` and `CleanContainersKubernetes`: deletion by age of objects not in
  the database.
- Decompression and tar parsing behind `Archive.NewReader`.
- Lifecycle.StepSafeIff: is about Pods; services and config maps that a failing start
  leaves behind are not counted.
- KeyCache.Verifier.KeyForToken: a caller still waiting for the mutex or a reply when the
  schedule ends has no answer.
- Server.Api.ContainerCreate: models the network part of a create; that image, port and
  Secret checks can refuse a request first is not in it.
- Server.Api.FindNetwork: by full id or name only.
- Server.Api.ContainerAttach: the streaming after the start is not modelled.
- Server.Api.ContainerRestart: the watch for the deletion is one flag of the step.
- Server.Api.ContainerWait: one turn of the polling loop; a missing container, which
  the handler answers with 404, has no answer here.
- Labels.Cluster.DeleteContainer: speaks of a short id; that two containers do not
  share one is a property of random ids.
- Naming.GenerateRandomID: the random source is a finite list of draws, so the loop
  ends; the original draws without limit.
- Ports.NetworkSettingsPorts: covers port forwarding and reverse proxying, not the mode
  that reports Service ports, and lists port numbers without the address and protocol
  strings around them.
- Secrets.New: white space is ASCII white space.
- Exec.MeaningPreservedIff: does not compare the variables a shell or helper maintains
  itself (PWD, OLDPWD, SHLVL, HOME, USER, LOGNAME, SHELL), supplementary groups, or what `cd` prints, and takes
  the script's text as one name whose behaviour is written out; command words hold no NUL
  byte.
- Exec.RunsAsUserIff: says nothing of what runs when a first word other than `--` is an
  option to `exec` or `setpriv`; that outcome stands for whatever the option does.
