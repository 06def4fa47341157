# kubconfig: a Dafny model of its session and kubeconfig logic

kubconfig is a command-line tool. It downloads a kubeconfig from an S3 bucket
and creates a temporary cluster-admin service account for the current user.
It issues a short-lived token for that account and writes a session
kubeconfig that uses the token. It also manages the shell function that
wraps the tool and summarises the cluster for `kubconfig analyze`.

This project models the decision-making around the tool's `kubectl`, S3 and
file-system calls. Every external call becomes an input: its error, its
output, or the outcome of each probe. The clock is passed in as an integer
number of nanoseconds, as Go's `time.Duration` counts. The modules follow
the program's files:

- `Wrappers`: `Option` and `Result`.
- `Strs`: the Go `strings` functions the code relies on (`Split`, `Join`,
  `TrimSpace`, `TrimSuffix`, `Fields`, `Contains`), and decimal formatting
  and parsing.
- `Clock`: instants, truncation to whole seconds, Unix seconds.
- `Base64Url`: unpadded base64url decoding and encoding, as in section 5 of
  RFC 4648.
- `TokenExpiry`: `verifyTokenExpiry`. The token is a JWS in compact
  serialization (section 7.1 of RFC 7515), and its `exp` claim (section
  4.1.4 of RFC 7519) is compared with the expected expiry, with one minute
  of tolerance.
- `Grants`: the temporary-access lifecycle of `config/serviceaccount.go`.
  It covers the session registry, creating the account, polling for it,
  the guarded teardown and the sweep of expired sessions. The cluster is a
  set of `(kind, namespace, name)` resources.
- `TokenIssue`: `GetTemporaryToken`. It covers the ten-minute floor on the
  token lifetime and the "expires in" message.
- `KubeDoc`: a decoded YAML document, as a tree of ordered mappings,
  sequences and text scalars.
- `Kubeconfig`: `GenerateKubeconfig`, `GetServiceAccountFromConfig` and
  `ModifyKubeconfigWithToken`.
- `TokenCache`: `config/token.go`. It covers `randString`, the
  temporary-token rewrite of `ModifyKubeconfig`, the credential cache read
  by `GetOriginalToken`, and the `--expiry` search of `VerifyTokenExpiry`.
  Both users loops are modelled as intended and as they behave under the
  yaml.v2 decoding the file asks for.
- `Settings`: the kubeconfig-name check and the two S3 endpoint
  normalisations of `config/config.go`.
- `Activation`: `kubconfig activate`. The session duration is checked and
  floored, then the steps run in order, and the first failure stops all
  later steps.
- `ShellRc`: `kubconfig shell install|uninstall` on one rc file.
- `Analyze`: the result processing of `getClusterMetrics`. It turns the
  collected `kubectl` outputs into counts, pod and node classifications,
  node health and the top pods.

## Model

| member | source | states |
|---|---|---|
| `Clock.TruncSeconds` | config/serviceaccount.go:440 | `int(d.Seconds())` truncates toward zero: for a non-negative duration the result is the whole seconds not exceeding it, and for a negative one the whole seconds not below it |
| `Clock.UnixSeconds` | config/token.go:74 | `Time.Unix()` is the floor of the instant in seconds: `s` seconds lie at or before the instant, `s+1` seconds after it |
| `Clock.FromUnix` | config/serviceaccount.go:319 | `time.Unix(sec, 0)` reads back as `sec` Unix seconds |
| `Base64Url.StripNewlines` | config/serviceaccount.go:307 | the decoder ignores carriage returns and line feeds: none remain, and text without them is unchanged |
| `Base64Url.Decode` | config/serviceaccount.go:307-310 | the payload without line breaks decodes exactly when it is all base64url alphabet and does not leave a single character over, and then four characters give three bytes |
| `Base64Url.Encode` | config/serviceaccount.go:307 | encoding uses only base64url alphabet characters and never a line break |
| `Base64Url.DecodeEncode` | config/serviceaccount.go:307 | decoding an unpadded base64url encoding gives back exactly the bytes |
| `Base64Url.DecodeRejectsLoneChar` | config/serviceaccount.go:307-310 | a payload whose length, without line breaks, leaves a remainder of 1 modulo 4 is rejected: one character cannot carry a byte |
| `Base64Url.EncodeAlphabet` | config/serviceaccount.go:301-307 | an encoded payload holds no '.', so it cannot disturb the three-way split of a token |
| `TokenExpiry.VerifyTokenExpiry` | config/serviceaccount.go:300-330 | a token not made of exactly three '.'-separated segments is refused as badly formed; for three segments, the decoding error comes exactly when the middle segment does not decode, the claims error exactly when it decodes but its claims do not read, and otherwise the token is accepted exactly when its `exp` lies within one minute of the expected instant, the result being that `exp`; a mismatch error names the expected instant and an embedded one outside the tolerance |
| `TokenExpiry.MintedTokenVerdict` | config/serviceaccount.go:301-327 | for a token `header.payload.signature` with readable claims, the verdict is acceptance exactly when `exp` seconds lie within 60 s of the expected expiry; otherwise the error carries both instants |
| `TokenExpiry.ToleranceBoundary` | config/serviceaccount.go:323 | a difference of exactly 60 s is accepted either way, and 61 s is refused either way |
| `TokenExpiry.MissingExpReadsAsEpoch` | config/serviceaccount.go:312-319 | claims without `exp` read as the Unix epoch, so such a token is accepted exactly when the expected expiry lies within a minute of 1970-01-01 |
| `Grants.RegisterSession` | config/serviceaccount.go:427-431 | registering inserts or overwrites the entry under the session's name and leaves every other entry as it was |
| `Grants.ExpiredIsNotLive` | config/serviceaccount.go:186 | the sweep's "expired" test is the exact complement of the guard's "live" test, and a session is live exactly when now is at or before its expiry |
| `Grants.HasActiveSession` | config/serviceaccount.go:185-189 | the guard holds exactly when a registered session of the same user is live, now at or before its expiry; `GuardIgnoresExpired` and `ExpiredEntryNeverGuarded` state what it depends on |
| `Grants.NameForInjective` | config/serviceaccount.go:99 | different users get different account names |
| `Grants.GuardMatchesOnlyOwnEntry` | config/serviceaccount.go:185-189 | in a registry keyed by account name, the only entry of a given user is the one under that user's own account name |
| `Grants.ExpiredEntryNeverGuarded` | config/serviceaccount.go:183-196 | in a registry keyed by account name, the user of an expired session has no live session, so the guard never holds back the sweep's teardown |
| `Grants.RegisterKeepsWellKeyed` | config/serviceaccount.go:430 | registering a session whose name is derived from its user keeps every entry keyed by its account name |
| `Grants.CleanupTemporaryAccess` | config/serviceaccount.go:181-220 | nothing is deleted while a same-user session is live; otherwise the binding `<name>-admin` is attempted first and then the account; each deletion that succeeded removes its resource; the error is absent exactly when both succeed, starts with "cleanup errors: " and names every failure |
| `Grants.EmptyRegistryAlwaysDeletes` | config/serviceaccount.go:183-214 | with no registered session, both deletions are always attempted, binding first |
| `Grants.GuardIgnoresExpired` | config/serviceaccount.go:186 | dropping expired entries never changes the guard's answer |
| `Grants.CleanupExpiredSessions` | config/serviceaccount.go:412-425 | whatever order the map is visited in and whatever the teardowns return, the sweep leaves exactly the live sessions; the cluster loses exactly the resources that the teardowns of expired sessions deleted; every reported error names an expired session |
| `Grants.WaitForServiceAccount` | config/serviceaccount.go:125-142 | at most ten probes are made; success comes exactly when one of the first ten probes finds the account, and the probing stops at the first that does; a timeout uses all ten probes |
| `Grants.CreateTemporaryAccess` | config/serviceaccount.go:78-123 | a failed access check, `whoami` or `getClusterInfo` is returned in that order, before anything is applied and with the cluster unchanged; a created session has the name `<user>-user`, the namespace "kube-system" and the expiry now plus the duration, and its account exists afterwards; when nothing is applied, nothing is probed and the cluster is unchanged; the call never removes anything from the cluster |
| `Grants.CreateBranches` | config/serviceaccount.go:108-152 | an account the existence lookup sees is reused without applying or probing; a lookup that fails discards its error and reads as "absent", so the manifests are applied even for an existing account; a failed apply is returned without probing and leaves behind exactly those of the account and its binding that it did create, in any combination, since `kubectl apply` goes on past a rejected object; otherwise the account and its binding are added, one to ten probes follow, and success comes exactly when a probe finds the account |
| `Grants.CreateIsIdempotent` | config/serviceaccount.go:108-152 | a second creation for the same user after a successful one applies nothing, probes nothing and leaves the cluster as it was when its existence lookup works; when that lookup fails, it applies the manifests again and removes nothing |
| `TokenIssue.SpanOf` | config/serviceaccount.go:478-496 | from one hour up the message gives whole hours and the leftover minutes below 60; from one minute it gives whole minutes; below that it gives the seconds |
| `TokenIssue.ExpiryMessageLeadingNumber` | config/serviceaccount.go:480-496 | the message starts with the decimal number of its largest unit and a blank, and that number parses back |
| `TokenIssue.ClampNeverShortens` | config/serviceaccount.go:440-448 | the floor never moves an expiry earlier, leaves at least ten minutes, changes nothing but the expiry, and the requested seconds are the remaining time in whole seconds |
| `TokenIssue.GetTemporaryToken` | config/serviceaccount.go:433-501 | an account that never shows up fails before anything else; otherwise the requested lifetime is the clamped one; a `kubectl create token` failure is reported with its output; a ready account, a created token and a passing expiry check always give success; success returns the trimmed token, which passes the expiry check against the possibly moved expiry, and the message for the requested seconds |
| `TokenIssue.MessageNeverInSeconds` | config/serviceaccount.go:440-496 | after the floor the message is never in seconds, and when in minutes it says at least ten |
| `TokenIssue.HonouredLifetimePasses` | config/serviceaccount.go:455-475 | a token whose `exp` is the request's Unix second plus the requested seconds lies within the tolerance of the session's expiry after the floor |
| `KubeDoc.Lookup` | config/serviceaccount.go:535 | a key is missing exactly when no entry carries it |
| `KubeDoc.Set` | config/serviceaccount.go:544 | after assignment the key reads the new value, and the mapping grows only when the key was missing |
| `KubeDoc.SetOthers` | config/serviceaccount.go:544 | assignment leaves every other key as it was |
| `KubeDoc.SetExisting` | config/serviceaccount.go:544 | assigning an existing key replaces that entry in place |
| `KubeDoc.SetSet` | config/serviceaccount.go:544 | a second assignment to the same key overrides the first |
| `KubeDoc.Remove` | config/token.go:84-85 | after deletion the key is missing, and only entries that were there remain |
| `KubeDoc.RemoveOthers` | config/token.go:84-85 | deletion leaves every other key as it was |
| `KubeDoc.RemoveAbsent` | config/token.go:84-85 | deleting a missing key changes nothing |
| `Kubeconfig.GenerateKubeconfig` | config/serviceaccount.go:362-386 | the generated document is a mapping whose keys are all distinct |
| `Kubeconfig.GetServiceAccountFromConfig` | config/serviceaccount.go:332-360 | an unreadable file is reported as such; missing or empty contexts give "no contexts found"; a context name is accepted exactly when it holds one '@'; the session read back has the part before the '@', "kube-system", an empty user and the zero expiry |
| `Kubeconfig.ContextNameForm` | config/serviceaccount.go:351-352 | a context name splits into exactly two parts exactly when it holds one '@' |
| `Kubeconfig.GetServiceAccountFromConfigAsWritten` | config/serviceaccount.go:338-350 | as written, the read never succeeds: once a first context exists, the assertion on it panics |
| `Kubeconfig.GeneratedConfigPanicsAsWritten` | config/serviceaccount.go:338-360 | the kubeconfig generated for a session without '@' reads back to its name as intended and panics as written |
| `Kubeconfig.GeneratedConfigReadsBack` | config/serviceaccount.go:349-381 | the generated kubeconfig reads back to the account's name and the system namespace exactly when neither the name nor the cluster name holds '@'; otherwise it is refused for its context name |
| `Kubeconfig.ModifyKubeconfigWithToken` | config/serviceaccount.go:528-547 | a missing, non-sequence or empty `users` is refused; the rewrite succeeds exactly when the first user has a `user` mapping, and then that mapping's token is the new one |
| `Kubeconfig.ModifyChangesOnlyToken` | config/serviceaccount.go:543-546 | a successful rewrite changes nothing but `users[0].user.token`: other top-level keys, other users and other fields look up the same |
| `Kubeconfig.ModifyTwice` | config/serviceaccount.go:544 | rewriting with one token and then another is rewriting with the second |
| `Kubeconfig.ModifyGenerated` | config/serviceaccount.go:528-547 | putting a new token into a generated kubeconfig gives the kubeconfig generated with that token |
| `TokenCache.Letter` | config/token.go:141-144 | an alphabet index names a lowercase letter for 0-25 and a digit for 26-35 |
| `TokenCache.LetterInjective` | config/token.go:141-144 | different indices give different characters |
| `TokenCache.RandString` | config/token.go:140-147 | `randString(n)` has length n |
| `TokenCache.RandStringAlphabet` | config/token.go:140-147 | every character of `randString(n)` is in "abcdefghijklmnopqrstuvwxyz0123456789" |
| `TokenCache.RandStringInjective` | config/token.go:140-147 | two random strings agree exactly when their draws agree |
| `TokenCache.TempTokenShape` | config/token.go:72-75 | a temporary token is "temp-", eight alphabet characters, "-" and the decimal Unix seconds of the expiry, and that suffix parses back |
| `TokenCache.RewriteAuth` | config/token.go:83-85 | the new `user` mapping carries the temporary token, has neither client certificate field, and keeps every other field |
| `TokenCache.RewriteUser` | config/token.go:69-86 | an entry without a `user` mapping is passed over; any other uses the next token and its cache write, and a failed write is returned |
| `TokenCache.RewriteUserRecords` | config/token.go:72-85 | the cache file written for a rewritten entry records the token it held before, as `%v` renders it, and the expiry, under the temporary token the entry now holds |
| `TokenCache.ModifyKubeconfig` | config/token.go:58-94 | with the users assertion holding, as intended: an undecodable document is returned as an error; a document that is not a mapping is refused before any token is made; a result is a mapping |
| `TokenCache.ModifyKubeconfigEffect` | config/token.go:65-93 | on success the top-level entries keep their keys and order, every users entry with a `user` mapping is rewritten, not only the first, every other entry is unchanged, and one cache file per token is written in order; a failed cache write stops the rewrite and is returned |
| `TokenCache.ModifyKubeconfigCaches` | config/token.go:65-86 | on success the k-th users entry with a `user` mapping, in document order, holds the k-th temporary token, and the k-th cache file records under that token the token the entry held before, as `%v` renders it, and the expiry |
| `TokenCache.CacheAfter` | config/token.go:97-113 | after the writes the cache holds exactly the old files and the written ones |
| `TokenCache.GetOriginalToken` | config/token.go:116-138 | a missing cache file is an error; an entry fails with "token expired" exactly when now is strictly after its expiry, and then its file is removed; otherwise the original token comes back and the cache is unchanged |
| `TokenCache.RedeemAfterWrite` | config/token.go:116-138 | a temporary token whose cache file was the last one written for it redeems for the original that file recorded, exactly until the recorded expiry |
| `TokenCache.RedeemRewritten` | config/token.go:72-138 | after a successful rewrite, the temporary token now held by the k-th rewritten users entry redeems, exactly until the expiry, for the token that entry held before, provided no later token of the same rewrite coincides with it |
| `TokenCache.ExpiryIndex` | config/token.go:170-172 | the argument used is the one after the first "--expiry" that has a text successor |
| `TokenCache.TrailingFlagSkipped` | config/token.go:171 | a trailing "--expiry" with no successor is never used |
| `TokenCache.VerifyTokenExpiry` | config/token.go:150-190 | with the users assertion holding, as intended: an undecodable file is reported as such; the verdict is "expired" exactly when now is strictly after the parsed expiry; "no token expiry found" comes exactly when the search finds none; a found expiry that parses always gives a verdict, and one that does not gives the parse error |
| `TokenCache.ExpiryFromFirstCarrier` | config/token.go:161-178 | the search finds nothing exactly when no entry of any `users` list has exec arguments holding "--expiry" followed by a text argument; otherwise it finds the argument after the first such flag, in the first entry that has one |
| `TokenCache.ExpiryInItemsFlat` | config/token.go:159-163 | searching the `users` keys one after another is searching all their entries laid end to end |
| `TokenCache.AsWrittenRewritesNothing` | config/token.go:59-93 | as written, with nested mappings decoded as `yaml.MapSlice`, a readable kubeconfig comes back unchanged, with no temporary token and no cache file |
| `TokenCache.AsWrittenFindsNoExpiry` | config/token.go:156-189 | as written, a readable kubeconfig never yields an expiry: the result is always "no token expiry found" |
| `TokenCache.OneUserAsWritten` | config/token.go:59-189 | on a kubeconfig with one user holding the token "abc" and an `--expiry` argument, the program as written rewrites nothing and finds no expiry |
| `TokenCache.OneUserIntended` | config/token.go:65-86 | on that kubeconfig the intended rewrite writes one cache file, recording "abc" under the first temporary token |
| `TokenCache.OneUserExpiry` | config/token.go:161-178 | on that kubeconfig the intended search finds the expiry text after "--expiry" |
| `Settings.ValidateKubeconfigName` | config/config.go:54-62 | the empty name fails as empty; a non-empty name is accepted exactly when it ends with ".cfg", so ".cfg" alone is accepted |
| `Settings.WithScheme` | config/config.go:79-84 | one trailing '/' goes, and "http://" is prepended only when neither scheme is present, so the result always names a scheme |
| `Settings.FormatEndpointURL` | config/config.go:72-87 | the empty endpoint stays empty; any other is trimmed of surrounding blanks, loses one trailing '/' and gains "http://" when it names no scheme, so it always names one; an all-blank one gives "http://" |
| `Settings.S3Endpoint` | config/config.go:97-103 | an empty endpoint leaves the session endpoint unset; any other is normalised like `FormatEndpointURL` but without the blank trim |
| `Settings.FormatKeepsNormalForm` | config/config.go:78-84 | an endpoint with a scheme, no trailing '/' and no surrounding blanks comes back unchanged from both normalisations |
| `Settings.FormatDropsOneSlash` | config/config.go:79 | only one trailing '/' is removed, so an endpoint ending in "//" still ends in '/' |
| `Settings.EndpointNormalisationsAgree` | config/config.go:72-103 | both normalisations agree on endpoints without surrounding blanks |
| `Settings.EndpointNormalisationsDiffer` | config/config.go:78-98 | they disagree on " minio:9000", whose leading blank only one of them trims |
| `Activation.ValidateSessionDuration` | cmd/activate.go:28-42 | an unreadable or non-positive duration is refused first; one over 24 hours is refused and exactly 24 hours is accepted; below ten minutes it becomes ten minutes, so an accepted duration lies between ten minutes and 24 hours |
| `Activation.Activate` | cmd/activate.go:26-107 | the steps that ran are a prefix of the fixed order and the failed step is the last of them; the run succeeds exactly when every step ran and the save did not fail; the run succeeds exactly when the duration is valid, the configuration loads, the name is valid, the download and the temporary file succeed, the access is created, its token issued, put into the kubeconfig and saved; the reported expiry is exactly the creation instant plus the duration, unless fewer than ten whole minutes of it remain at the token request, in which case it is ten minutes after that request; so it is at least the duration after creation and ten minutes after the token request |
| `Activation.FailFast` | cmd/activate.go:26-102 | when a step fails, exactly the steps up to it ran and none after it |
| `ShellRc.InstallShellIntegration` | cmd/shell.go:63-78 | a readable rc file that already holds the marker anywhere is left as it was, without error; otherwise the open-or-write error is returned and the file left as it was, or, without one, exactly "\n", the marker, "\n", the script and "\n" are appended to the file's text (a missing file is created, an unreadable one stays unreadable); after a successful call the text holds the marker, and a file that was not unreadable reads as installed |
| `ShellRc.InstallTwice` | cmd/shell.go:63-67 | on a file that can be read, a second installation after a successful one changes nothing and returns no error |
| `ShellRc.UnreadableInstallRepeats` | cmd/shell.go:63-78 | on an unreadable file the marker test always fails, so two installations append the function twice |
| `ShellRc.IsIntegrationInstalled` | cmd/shell.go:114-120 | an unreadable file is not installed; a readable one is exactly when the marker occurs anywhere in it, even inside another line, which is the case `RemoveWithoutMarkerLine` covers |
| `ShellRc.KindOf` | cmd/shell.go:97-101 | a line is the marker line exactly when it trims to the marker, and blank exactly when it is all white space |
| `ShellRc.Filter` | cmd/shell.go:95-108 | the removal loop keeps at most the lines it is given and never a marker line; `FilterDropsBlock` and `FilterKeepsPlainLines` state which lines go |
| `ShellRc.RemoveShellIntegration` | cmd/shell.go:80-112 | a file without the marker, or unreadable, is left alone without error; otherwise the write-back's error is returned with the file left as it was, and without one the file is readable afterwards |
| `ShellRc.RemoveDropsMarkerLines` | cmd/shell.go:91-111 | removal keeps an order-preserving subsequence of the lines with no line that trims to the marker |
| `ShellRc.RemoveWithoutMarkerLine` | cmd/shell.go:91-111 | when the marker occurs only inside other lines, removal rewrites the file unchanged |
| `ShellRc.FilterDropsBlock` | cmd/shell.go:96-108 | a marker line, the non-blank lines after it and the first blank line after those are dropped, and the lines after the block are filtered afresh |
| `ShellRc.FilterKeepsPlainLines` | cmd/shell.go:105-107 | lines outside any block are all kept |
| `ShellRc.RemoveAfterInstall` | cmd/shell.go:76-108 | on a readable file without the marker, or a missing one, with both writes succeeding, removal after installation leaves the script in the file: the result is the old content, the script and a line break |
| `ShellRc.RemoveShellBlock` | cmd/shell.go:80-112 | the corrected removal leaves a file without the marker, or unreadable, alone without error; otherwise the write-back's error is returned with the file left as it was, and without one the file is readable afterwards |
| `ShellRc.RemoveBlockAfterInstall` | cmd/shell.go:76-108 | on a readable file without the marker, or a missing one, with both writes succeeding, with the corrected filter, removal after installation leaves only the old content and a line break |
| `Strs.Split` | cmd/shell.go:91-111 | the pieces hold no separator, there is at least one, and joining them on the separator gives back the text, so splitting and rejoining a file changes nothing |
| `Strs.SplitJoin` | cmd/analyze.go:175-179 | text joined from pieces without the separator splits back into those pieces |
| `Strs.TrimSpaceEmpty` | cmd/analyze.go:175 | trimming gives the empty text exactly when the text is all white space |
| `Strs.FieldsJoin` | cmd/analyze.go:249-252 | words without blanks, joined by blanks, split back into the same words |
| `Strs.ItoaRoundTrip` | config/token.go:72 | a decimal number formatted with `%d` parses back to itself |
| `Analyze.Collect` | cmd/analyze.go:150-167 | there are never more failed commands than answers |
| `Analyze.CollectKeys` | cmd/analyze.go:161-165 | a metric has an output exactly when one of its answers succeeded |
| `Analyze.CollectFailed` | cmd/analyze.go:161-162 | a metric is listed as failed exactly when one of its answers failed |
| `Analyze.CollectLatest` | cmd/analyze.go:164 | the output kept for a metric is that of its last successful answer |
| `Analyze.FailedMetricAbsent` | cmd/analyze.go:161-224 | a metric whose answers all failed has no output, so its counts stay zero, and it is listed as failed |
| `Analyze.LineCount` | cmd/analyze.go:174-176 | a count is one more than the line breaks left after trimming, so empty or blank output counts as 1 |
| `Analyze.PodStatesPartition` | cmd/analyze.go:181-189 | every pod line lands in exactly one class, so the running, crashed, pending and other counts add up to the pod count |
| `Analyze.TallyPods` | cmd/analyze.go:178-190 | the loop counts the lines of each class, and running plus crashed plus pending is the pod count less the unclassified lines |
| `Analyze.HealthKeys` | cmd/analyze.go:200 | a node has a health entry exactly when some used line names it |
| `Analyze.HealthLatest` | cmd/analyze.go:200 | a node named twice keeps the status of its last line |
| `Analyze.TallyNodes` | cmd/analyze.go:192-207 | the loop fills the health map with every used line, counts as ready those whose status is exactly "Ready", and ready plus not ready is the number of used lines, at most the node count |
| `Analyze.TakeTop` | cmd/analyze.go:267-273 | both top lists are the first min(3, n) lines of the top-pods output |
| `Analyze.TopNodeUsage` | cmd/analyze.go:244-256 | the usage loop with a given field guard reads at most one entry per line, and a failure names the line whose fifth field was missing; `AsWrittenPanics` and `UsageNeverFails` state it for the two guards |
| `Analyze.AsWrittenPanics` | cmd/analyze.go:248-252 | with the guard as written, node usage fails exactly when some line has exactly four fields, at the first such line |
| `Analyze.NodeLineWithoutMemoryPercent` | cmd/analyze.go:249-252 | the four-field line "node1 250m 12% 1024Mi" passes the guard and is read at its fifth field |
| `Analyze.UsageNeverFails` | cmd/analyze.go:248-256 | with a guard of five fields, node usage never fails and reads every line that has at least five fields |
| `Analyze.ResourceCount` | cmd/analyze.go:210-224 | a resource without output counts zero; otherwise it counts the lines of its trimmed output |
| `Analyze.Process` | cmd/analyze.go:169-273 | each metric without output stays at its zero value; the context is the trimmed output; the counts, pod classes, node health and ready count are those of the outputs; running plus crashed plus pending is at most the pod count; ready plus not ready is the number of node lines with a name and a status |
| `Analyze.GetClusterMetrics` | cmd/analyze.go:93-282 | the call times out exactly when fewer answers arrive than there are commands; otherwise a metric is listed as failed exactly when one of the collected answers for it failed, and the metrics are what `Process` states of the outputs collected from the first twelve answers |

## Left out

- I/O: reading and writing files, the S3 download, `LoadConfig` and
  `SaveConfig`, YAML and JSON encoding. Each is an input, the error or
  decoded value it produced. JSON claim reading and RFC 3339 parsing are
  function parameters.
- `kubectl`: every call, including `verifyClusterAccess`, `getCurrentUser`,
  `getClusterInfo`, `serviceAccountExists`, `apply`, `delete` and `create
  token`. Each is an input. `serviceAccountExists` discards its error, so
  its input is only whether the lookup failed.
  `text/template` rendering is modelled only as the two resources it
  creates.
- Concurrency:
  - `StartCleanupRoutine`, `showLoadingAnimation`, the mutex and the
    analyze fan-out are left out. The model runs one operation at a time.
  - The sweep holds the write lock (config/serviceaccount.go:413) and calls
    `CleanupTemporaryAccess`, which takes the read lock (:183) in the same
    goroutine. In Go this deadlocks the first time an expired session is
    found. `Grants.CleanupExpiredSessions` describes the sweep as if the
    lock were re-entrant; once an expired entry exists, Go never gets that
    far.
- Registry use: `RegisterSession` has no caller in config/ or cmd/, so in
  the program the registry stays empty and the teardown guard never holds
  anything back. `Grants.EmptyRegistryAlwaysDeletes` states this case.
- Kubeconfig.GetServiceAccountFromConfig models the read as intended, with
  the assertion on the first context (config/serviceaccount.go:349)
  holding on any mapping. Under yaml.v3, which the file imports, a mapping
  with text keys decodes as `map[string]interface{}`, so as written that
  assertion panics on every kubeconfig with a context.
  `GetServiceAccountFromConfigAsWritten` models that (see Findings). The
  assertion at :540 asks for `map[string]interface{}` and holds. A context
  or user entry that is not a mapping is the `Panic` error, or a refusal,
  in the model.
- Non-text scalars: YAML numbers and booleans are modelled as text. `%v` of
  a token that is not text is a function parameter.
- Time:
  - Duration overflow in Go's `time` arithmetic is not modelled; integers
    are unbounded.
  - `int(Seconds())` is exact truncation, with no float rounding.
  - `Activation` uses two instants, one for creation and one for the token
    request. The `time.Now()` of each `kubectl` call is not separate.
  - The sweep passes its own instant to the teardown guard, while
    config/serviceaccount.go:186 reads the clock afresh for each session.
- Randomness: the `math/rand` source is an input sequence of indices.
- Cache writes: `cacheCredentials` writes a file per temporary token. A
  write's outcome is an input, and the cache is a map from temporary token
  to entry.
- `GenerateToken` and cmd/token.go: these are clock, I/O and process exit
  only.
- `WaitForSecret` has no caller, and it calls `kubectl` only.
- Second read in uninstall: `removeShellIntegration` reads the file twice,
  once in `isIntegrationInstalled` and once for the content. The model
  reads it once, so an error of the second read alone is not modelled.
- ShellRc.InstallShellIntegration and ShellRc.RemoveShellIntegration: a
  write that fails leaves the file as it was. A write that fails part way
  (`WriteString` after some bytes, `os.WriteFile` after truncating) is not
  modelled.
- Script literal: the shell script constant is written as the lines of the
  function joined by line breaks, with "\n" at each end. This is the same
  text.
- Analyze:
  - The node-capacity query, the CPU and memory totals, the usage
    percentages, `parseFloat` and table rendering are floating point and
    output, so they are dropped (cmd/analyze.go:226-264, 284-467).
  - The usage step keeps the two percentage fields as text.
  - Answers are the sequence in which outputs arrive. Go's `select` race
    between a late answer and the timeout is resolved as "a timeout
    happens exactly when fewer answers than commands arrived".
  - The failed-commands warning is output only.
- Kubeconfig.GenerateKubeconfig: its own contract states only that the
  document is a mapping with distinct keys. The field values are stated
  through `GeneratedConfigReadsBack` and `ModifyGenerated`.
- ShellRc.RemoveShellIntegration: its own contract states only when the
  file is left alone. The kept lines are stated by
  `RemoveDropsMarkerLines`, `RemoveWithoutMarkerLine` and
  `RemoveAfterInstall`.
- ShellRc.RemoveShellBlock: its own contract states only when the file is
  left alone. Its effect on an installed file is `RemoveBlockAfterInstall`.
- TokenCache.ModifyKubeconfig: its own contract covers only the refusals.
  The rewrite itself is stated by `ModifyKubeconfigEffect`,
  `ModifyKubeconfigCaches` and `RedeemRewritten`.
- TokenCache.ModifyKubeconfig and TokenCache.VerifyTokenExpiry model the
  users loops as intended, with the hash-map assertion on each users entry
  holding. As written the assertion never holds; `ModifyKubeconfigAsWritten`
  and `VerifyTokenExpiryAsWritten` model that (see Findings).
- TokenCache.RewriteUser: its contract states the token and write
  bookkeeping. The rewritten entry is stated by `RewriteUserOk`, and its
  cache file by `RewriteUserRecords`.
- Analyze.Collect: its own contract bounds only the failed list. Its
  contents are stated by `CollectKeys`, `CollectFailed` and
  `CollectLatest`.
- Analyze.Process: the node usage is stated by its length only, because
  its values feed the dropped percentage arithmetic.

## Findings

| source | as written | input that shows it | evidently intended | confidence | as-written member | corrected member |
|---|---|---|---|---|---|---|
| cmd/shell.go:101-104 | uninstall ends the block at the first blank line after the marker. The installed script starts with a line break, so that blank line comes right after the marker, and the shell function stays in the rc file | an rc file without the marker, installed and then uninstalled | uninstall removes the marker and the whole function | not executed | `ShellRc.RemoveAfterInstall` | `ShellRc.RemoveBlockAfterInstall` |
| config/token.go:59-70 | both users loops decode the file into a `yaml.MapSlice` (here and at :156), and yaml.v2 then decodes every nested mapping as a `yaml.MapSlice` too. The assertion that a users entry is a `map[interface{}]interface{}` (here and at :165) therefore never holds. `ModifyKubeconfig` caches nothing and leaves every token in place, and `VerifyTokenExpiry` always reports "no token expiry found" | a kubeconfig whose one user "dev" has the token "abc" and the exec arguments "--expiry", "2030-01-01T00:00:00Z" | every users entry with a `user` mapping gets a temporary token whose cache file records its old token, and the expiry argument is found | not executed; rests on the yaml.v2 decoder, which is not part of this model | `TokenCache.OneUserAsWritten` | `TokenCache.RedeemRewritten` |
| config/serviceaccount.go:349 | the file decodes with yaml.v3, which turns a mapping with text keys into a `map[string]interface{}`, yet the first context is asserted to be a `map[interface{}]interface{}`. The assertion fails and the program panics | the kubeconfig `GenerateKubeconfig` writes for the session "dev-user" on the cluster "prod" | the context name "dev-user@prod" is read back as the session "dev-user" | not executed; rests on the yaml.v3 decoder, which is not part of this model | `Kubeconfig.GeneratedConfigPanicsAsWritten` | `Kubeconfig.GeneratedConfigReadsBack` |
| cmd/analyze.go:250-252 | the guard admits lines with four or more fields, but the line reads `fields[4]`, the fifth field. A line of exactly four fields panics with an index out of range | a `kubectl top nodes` line "node1 250m 12% 1024Mi" | the guard asks for five fields | not executed | `Analyze.NodeLineWithoutMemoryPercent` | `Analyze.UsageNeverFails` |

The model's `Analyze.Process` uses the corrected guard. `Kubeconfig.GetServiceAccountFromConfig` reads the first context as intended. `TokenCache.ModifyKubeconfig` and `TokenCache.VerifyTokenExpiry` read users entries as intended; `AsWrittenRewritesNothing` and `AsWrittenFindsNoExpiry` state the loops as written for every kubeconfig, and `OneUserIntended` and `OneUserExpiry` give the intended results on the example. `ShellRc.RemoveShellBlock` is the corrected removal filter. A blank line directly after the marker does not end the block there; the block ends at the first blank line after the function's lines.
