# A verified model of the stamp marketplace's guarded core

This Dafny project models the parts of the stamp-marketplace repository that hold real logic:

- **`server/utils/safe-command.ts`**, the guarded layer through which the server runs external programs:
  - the command and argument validators;
  - the package-name and filename predicates;
  - the shell quoting encoder;
  - the file-path sanitiser, built on a model of POSIX `path.normalize` / `path.resolve`;
  - option and result shaping of `safeExecute`;
  - the event-driven `safeSpawn` as a state machine.
- **`shared/fee-utils.ts`**: the platform fees, in exact real arithmetic with explicit cent and whole-coin rounding.
- **`shared/schemas.ts`**: the enum schemas, `AddressSchema` and `OptionalAddressSchema` as validators over dynamic values.
- **`api/pin.js`**: the pinning endpoint, covering:
  - the `data:` URL check (RFC 2397, section 3);
  - the `multipart/form-data` bodies (RFC 7578, section 4.1, with the delimiters of RFC 2046, section 5.1.1);
  - the credential and header rules;
  - the request handler's decisions.
- **`app.js`**: the todo list page state, as a class over a sequence of items.
- **`netlify/functions/api.ts`**: the in-place path rewrite of the serverless entry point.

Files:

- `wrappers.dfy`: `Option` and `Result`.
- `strings.dfy`: `startsWith`, `indexOf`, `replace` with a string pattern, `includes('..')`, `join('')` and the decimal text of a count.
- `js_value.dfy`: JavaScript values, truthiness, `typeof`, property access.
- `posix_path.dfy`: split, segment collapse, normalize and resolve.
- `safe_command.dfy`, `spawn.dfy`, `fee_utils.dfy`, `schemas.dfy`, `pin.dfy`, `todos.dfy`, `netlify_api.dfy`: one per core file.

## Model

| member | source | states |
|---|---|---|
| PosixPath.Split | server/utils/safe-command.ts:77 | a path splits into at least one segment, none containing `/` |
| PosixPath.Join | server/utils/safe-command.ts:77 | the joined path starts with the first segment; `JoinSplit`/`SplitJoin` make it the inverse of splitting |
| PosixPath.JoinSplit | server/utils/safe-command.ts:77 | joining the segments of a path with `/` gives the path back |
| PosixPath.SplitJoin | server/utils/safe-command.ts:77 | splitting the join of slash-free segments gives the segments back |
| PosixPath.SplitSlash | server/utils/safe-command.ts:77 | the segments of `a/b` are those of `a` followed by those of `b` |
| PosixPath.JoinDotDot | server/utils/safe-command.ts:80 | a joined path contains `..` iff one of its segments does |
| PosixPath.Collapse | server/utils/safe-command.ts:77 | collapsing `.`/empty/`x/..` segments onto a collapsed stack leaves a collapsed stack (no `.`, no empty segment, `..` only leading and only for relative paths) |
| PosixPath.CollapseAppend | server/utils/safe-command.ts:77 | collapsing `a + b` is collapsing `a` and then `b` |
| PosixPath.CollapseCanonical | server/utils/safe-command.ts:77 | collapsing an already collapsed sequence changes nothing |
| PosixPath.CollapseKeepsLeadingParent | server/utils/safe-command.ts:77 | once a relative path begins with `..`, no later segment removes it |
| PosixPath.Normalize | server/utils/safe-command.ts:77 | normalizing never gives the empty string and keeps a path absolute iff it was |
| PosixPath.Gather | server/utils/safe-command.ts:86-87 | gathering stops at the last absolute path and reports it: a reported prefix is absolute, and when none is reported no argument was absolute |
| PosixPath.NormalFormFixed | server/utils/safe-command.ts:77 | a path built from a collapsed stack splits and collapses back to that stack, keeping its leading and trailing slash |
| PosixPath.NormalizeIdempotent | server/utils/safe-command.ts:77 | normalizing twice is normalizing once |
| PosixPath.RelativePlainNormal | server/utils/safe-command.ts:77 | a relative path of plain segments is already normal |
| PosixPath.Resolve | server/utils/safe-command.ts:86-87 | resolving against an absolute working directory gives an absolute path |
| PosixPath.AbsolutePlainNormal | server/utils/safe-command.ts:86-87 | an absolute path of plain segments is normal and resolves to itself whatever precedes it |
| SafeCommand.ValidateCommand | server/utils/safe-command.ts:46-51 | a command passes iff it is non-empty and every character is in `[A-Za-z0-9._/-]`; a passing command has no shell metacharacter, and a failing one reports `InvalidCommand` |
| SafeCommand.ValidCommandIsLiteralWord | server/utils/safe-command.ts:46-51 | a valid command is read by the POSIX shell as exactly itself (Unquote gives it back) |
| SafeCommand.CommandExamples | server/utils/safe-command.ts:46-51 | `echo; ls` is refused; `echo`, `/usr/bin/env` and `my-tool.sh` pass |
| SafeCommand.ArgumentsCheck | server/utils/safe-command.ts:59-65 | the arguments pass iff all are strings; otherwise the error names the `typeof` of the first non-string |
| SafeCommand.ValidateArguments | server/utils/safe-command.ts:59-65 | the early-exit loop returns the verdict of the specification over the whole argument list |
| SafeCommand.ArgStrings | server/utils/safe-command.ts:121-122 | validated arguments map one-to-one to the strings handed to the process |
| SafeCommand.ScopedNameSplit | server/utils/safe-command.ts:258 | a name starting with `@` fits the pattern iff the first `/` splits it into a valid scope and a valid name |
| SafeCommand.IsValidPackageName | server/utils/safe-command.ts:254-259 | the character-class check holds iff the name fits `(@scope/)?name`, with each part starting in `[a-z0-9-~]` and continuing in `[a-z0-9-._~]` |
| SafeCommand.PlainPackageExamples | server/utils/safe-command.ts:254-259 | `express` and `body-parser` are accepted; `Express` and the empty name are refused |
| SafeCommand.ScopedPackageExample | server/utils/safe-command.ts:254-259 | `@types/node` is accepted |
| SafeCommand.IsValidFilename | server/utils/safe-command.ts:267-271 | a valid filename is non-empty, has no `/` and is not `..` |
| SafeCommand.HostilePackageExamples | server/utils/safe-command.ts:254-259 | `../etc/passwd`, `package; rm -rf` and `package&& ls` are refused |
| SafeCommand.ValidFilenameIsSafePath | server/utils/safe-command.ts:267-271 | a valid filename has no `/` and passes the path sanitiser unchanged |
| SafeCommand.FilenameExamples | server/utils/safe-command.ts:267-271 | plain names are accepted; `..`, `/`, `;`, `&`, `\|` are refused |
| SafeCommand.Unquote | server/utils/safe-command.ts:282-285 | the POSIX shell's reading of a word with single quotes (partner of the quoting encoder); what it reads is never longer than the word |
| SafeCommand.EscapeShellArg | server/utils/safe-command.ts:282-285 | the quoted argument opens and closes with `'`; an argument without a quote is only wrapped in quotes |
| SafeCommand.EscapeQuotesUnquote | server/utils/safe-command.ts:284 | inside single quotes, the `'\''` replacement of each quote reads back as the original text |
| SafeCommand.EscapeShellArgRoundTrip | server/utils/safe-command.ts:282-285 | the POSIX single-quote reading of `escapeShellArg(s)` is exactly `s`, for every `s` |
| SafeCommand.EscapeShellArgLength | server/utils/safe-command.ts:282-285 | the quoted form is `\|s\| + 2 + 3·(number of quotes)` long |
| SafeCommand.EscapeShellArgNotIdempotent | server/utils/safe-command.ts:282-285 | quoting an already quoted argument always changes it |
| SafeCommand.EscapeQuoteExample | server/utils/safe-command.ts:282-285 | `it's` becomes `'it'\''s'` |
| SafeCommand.EscapeSpaceExample | server/utils/safe-command.ts:282-285 | `hello world` becomes `'hello world'` |
| SafeCommand.SanitizeFilePath | server/utils/safe-command.ts:75-97 | the function raises the traversal error iff the normalized path contains `..`; every other error is the outside-base error. Without a base it returns the normalized path, which then has no `..`. With a base and no `..`, it succeeds iff the base resolved and then the normalized path resolved against it string-starts with the resolved base, and the result is exactly that resolved path |
| SafeCommand.SanitizeFilePathContained | server/utils/safe-command.ts:85-94 | the corrected sanitiser: the same error rules and the same resolved result; with a base and no `..` it succeeds iff that result lies inside the base segment-wise |
| SafeCommand.RelativeUnderBase | server/utils/safe-command.ts:86-87 | a relative normal path resolved under an absolute plain base is the base's segments followed by the path's plain segments |
| SafeCommand.RelativeAccepted | server/utils/safe-command.ts:85-96 | both sanitisers accept a relative normal path under a plain base and return the base's segments followed by the path's |
| SafeCommand.RelativeUnderBaseExample | server/utils/safe-command.ts:85-96 | `documents/file.txt` under base `/home/user/safe` is accepted by both sanitisers as `/home/user/safe/documents/file.txt`, which starts with the base |
| SafeCommand.RelativeLandsInside | server/utils/safe-command.ts:85-94 | a relative path without `..` always resolves inside the base |
| SafeCommand.OutsideBaseOnlyForAbsolute | server/utils/safe-command.ts:89-91 | the outside-base error can only arise for a path whose normal form is absolute |
| SafeCommand.SanitizedHasNoDotDot | server/utils/safe-command.ts:75-97 | with a base free of `..`, no returned path contains `..` |
| SafeCommand.NormalPathUnchanged | server/utils/safe-command.ts:96 | an already-normal path without `..` comes back unchanged when no base is given |
| SafeCommand.AbsoluteInsideBaseUnchanged | server/utils/safe-command.ts:85-93 | an absolute plain path prefixed by the base comes back as it is |
| SafeCommand.ParentInputIsTraversal | server/utils/safe-command.ts:77-82 | any path starting with `../` is refused as traversal, with or without a base |
| SafeCommand.RelativePathExample | server/utils/safe-command.ts:75-97 | `folder/file.txt` is returned unchanged |
| SafeCommand.TraversalExample | server/utils/safe-command.ts:80-82 | `../etc/passwd` is refused as traversal |
| SafeCommand.TraversalUnderBaseExample | server/utils/safe-command.ts:77-82 | `../../../etc/passwd` under base `/home/user/safe` is refused as traversal, not as lying outside the base |
| SafeCommand.InsideBaseExample | server/utils/safe-command.ts:85-93 | `/home/user/safe/file.txt` under base `/home/user/safe` is accepted as it is |
| SafeCommand.SiblingPrefixAccepted | server/utils/safe-command.ts:89 | as written, `/home/user/safe-evil/x` is accepted under base `/home/user/safe`, although it is not inside it; the corrected sanitiser refuses it |
| SafeCommand.ResolveExecOptions | server/utils/safe-command.ts:124-130 | timeout and maxBuffer are never 0. They default to 30000 and 1048576 when absent or 0, and otherwise keep the given value. The environment defaults to the process environment, and the encoding is utf-8 |
| SafeCommand.ShapeResult | server/utils/safe-command.ts:132-146 | `error` is set iff the run failed. The exit code is 0 iff the run succeeded, and truthy iff it failed. A failure keeps a truthy code, otherwise 1, and its outputs default to `''` |
| SafeCommand.SafeExecute | server/utils/safe-command.ts:116-147 | an invalid command or a non-string argument is refused before anything runs; otherwise the result is the shaped outcome of running exactly that command and those arguments with the resolved options |
| SafeCommand.SafeNpmInstall | server/utils/safe-command.ts:294-303 | an invalid package name is refused; otherwise `npm install <name>` is run |
| SafeCommand.SafeReadFile | server/utils/safe-command.ts:313-320 | a sanitiser error is passed on; otherwise `cat` is run on the path the sanitiser as written returns, prefix test included |
| SafeCommand.SafeReadFileContained | server/utils/safe-command.ts:313-320 | the same with the corrected sanitiser: `cat` only ever receives a path inside the base |
| Spawn.Initial | server/utils/safe-command.ts:189-220 | right after spawning the promise is pending, nothing is killed, and the session invariant holds |
| Spawn.Step | server/utils/safe-command.ts:189-239 | an event only extends both outputs, never unkills the process, and leaves a settled outcome as it is |
| Spawn.Run | server/utils/safe-command.ts:189-239 | the same over any sequence of events |
| Spawn.InitialInvariant | server/utils/safe-command.ts:189-220 | the state right after spawning satisfies the session invariant |
| Spawn.StepInvariant | server/utils/safe-command.ts:189-239 | every event preserves the invariant. Streamed chunks concatenate to the buffered output. A timer exists only while pending and with a truthy timeout. A rejection is the timeout's. A resolved result's outputs are prefixes of the final ones |
| Spawn.RunInvariant | server/utils/safe-command.ts:189-239 | the invariant holds after any sequence of events |
| Spawn.RunAppend | server/utils/safe-command.ts:189-239 | running `a + b` is running `a` then `b` |
| Spawn.SettledStays | server/utils/safe-command.ts:212-240 | once settled, the promise's outcome never changes |
| Spawn.DataOnlyRun | server/utils/safe-command.ts:189-210 | data chunks only append to their stream's buffer and never settle or touch the timer |
| Spawn.FirstEndDecides | server/utils/safe-command.ts:215-239 | after data only, the first timeout, error or close decides the outcome, whatever follows |
| Spawn.TimerIdleWithoutTimeout | server/utils/safe-command.ts:215-220 | without a truthy timeout a timer event changes nothing |
| Spawn.NeverRejectedWithoutTimeout | server/utils/safe-command.ts:215-220 | without a truthy timeout the promise is never rejected |
| Spawn.StreamedIsBuffered | server/utils/safe-command.ts:189-210 | the chunks given to a callback concatenate to that stream's output |
| Spawn.ErrorMeansNullExit | server/utils/safe-command.ts:222-230 | a result carrying an error has a null exit code |
| Spawn.NullExitWithoutError | server/utils/safe-command.ts:232-239 | a close with a null code resolves with a null exit code and no error; so a null exit code does not imply an error, only an error implies a null exit code |
| Spawn.SpawnSession.constructor | server/utils/safe-command.ts:187-220 | a new session starts in the initial state |
| Spawn.SpawnSession.OnStdoutData | server/utils/safe-command.ts:193-199 | the stdout handler performs the stdout step and keeps the invariant |
| Spawn.SpawnSession.OnStderrData | server/utils/safe-command.ts:203-209 | the stderr handler performs the stderr step and keeps the invariant |
| Spawn.SpawnSession.OnTimer | server/utils/safe-command.ts:216-219 | the timer handler kills and rejects, as the step does |
| Spawn.SpawnSession.OnError | server/utils/safe-command.ts:222-230 | the error handler clears the timer and resolves with a null exit code |
| Spawn.SpawnSession.OnClose | server/utils/safe-command.ts:232-239 | the close handler clears the timer and resolves with the code |
| Spawn.SafeSpawn | server/utils/safe-command.ts:169-246 | validation failures throw before anything is spawned. Otherwise a fresh session starts in the initial state, with shell set to false and the resolved environment |
| FeeUtils.Round | shared/fee-utils.ts:85 | `Math.round` gives the integer within half a unit, halves upward |
| FeeUtils.Round2 | shared/fee-utils.ts:54 | rounding to cents gives a whole number of cents within half a cent, and keeps the sign |
| FeeUtils.Round2OfCents | shared/fee-utils.ts:54 | an amount already in cents is unchanged by rounding |
| FeeUtils.Round2Monotone | shared/fee-utils.ts:54 | rounding to cents keeps order |
| FeeUtils.AuthenticationFee | shared/fee-utils.ts:52-55 | the authentication fee is a whole number of cents |
| FeeUtils.AuthenticationFeeBounds | shared/fee-utils.ts:52-55 | the authentication fee lies in [5, 1000] |
| FeeUtils.AuthenticationFeeMonotone | shared/fee-utils.ts:52-55 | a higher value never gets a lower authentication fee |
| FeeUtils.AuthenticationFeeBands | shared/fee-utils.ts:53 | for values in [100, 20000] the fee is the 5 % platform fee; it is 5 below and 1000 above |
| FeeUtils.NftMintingFee | shared/fee-utils.ts:63-65 | the minting fee is 10 |
| FeeUtils.StorageFee | shared/fee-utils.ts:73-75 | the storage fee is 2 |
| FeeUtils.ConvertToStampCoin | shared/fee-utils.ts:84-86 | the coin amount is the integer within half a coin of 100 times the dollars |
| FeeUtils.ConvertCentsExactly | shared/fee-utils.ts:84-86 | an amount in whole cents converts exactly, one coin per cent |
| FeeUtils.ConvertExamples | shared/fee-utils.ts:84-86 | 100 → 10000, 1 → 100, 1.234 → 123, 0.5 → 50 |
| FeeUtils.PlatformFee | shared/fee-utils.ts:95-97 | the platform fee is a whole number of cents within half a cent of 5 % |
| FeeUtils.PlatformFeeOfDollars | shared/fee-utils.ts:95-97 | on whole dollars the fee is exactly 5 %; in particular the fee of 0 is 0 |
| FeeUtils.SumOfFees | shared/fee-utils.ts:107-109 | the running sum of per-price fees is a whole number of cents |
| FeeUtils.FeeOf | shared/fee-utils.ts:108 | one price's contribution is a whole number of cents, and not negative for a non-negative price |
| FeeUtils.SumOfFeesNonNegative | shared/fee-utils.ts:107-109 | prices that are missing or not negative sum to a fee that is not negative |
| FeeUtils.SumOfFeesAppend | shared/fee-utils.ts:107-109 | the sum over `a + b` is the sum over `a` plus the sum over `b` |
| FeeUtils.TotalIsSumOfFees | shared/fee-utils.ts:106-111 | the final rounding of the total changes nothing |
| FeeUtils.TotalPlatformFee | shared/fee-utils.ts:106-111 | the total platform fee is a whole number of cents |
| FeeUtils.TotalNonNegative | shared/fee-utils.ts:106-111 | no negative price, no negative total |
| FeeUtils.MissingPriceIgnored | shared/fee-utils.ts:108 | a missing price can be removed from the list without changing the total |
| FeeUtils.TotalExamples | shared/fee-utils.ts:106-111 | [100, 200] and [100, missing, 200] total 15; all-missing totals 0 |
| Schemas.ParseEnum | shared/schemas.ts:15-27 | an enum accepts a value iff it is exactly one option's name, and returns that option |
| Schemas.ParseRarity | shared/schemas.ts:15 | an accepted rarity is the string of its name; otherwise the error reports the value |
| Schemas.RarityRoundTrip | shared/schemas.ts:15 | every rarity name parses back to that rarity |
| Schemas.RarityCaseExamples | shared/schemas.ts:15 | `Common`, `RARE` and the empty string are refused |
| Schemas.ParseStampCondition | shared/schemas.ts:21 | an accepted condition is the string of its name |
| Schemas.StampConditionRoundTrip | shared/schemas.ts:21 | every condition name parses back to that condition |
| Schemas.StampConditionCaseExamples | shared/schemas.ts:21 | `Mint` and `USED` are refused |
| Schemas.ParseShippingCompany | shared/schemas.ts:27 | an accepted company is the string of its name |
| Schemas.ShippingCompanyRoundTrip | shared/schemas.ts:27 | every company name parses back to that company |
| Schemas.ShippingCompanyCaseExamples | shared/schemas.ts:27 | `dhl` and `fedex` are refused |
| Schemas.AddressIssues | shared/schemas.ts:37-45 | a field is reported iff it is invalid, and no field is reported iff all are valid |
| Schemas.ParseAddress | shared/schemas.ts:37-45 | an accepted address has the five required fields non-empty and every field equal to the input's. Otherwise the error is "expected object", or it lists exactly the invalid fields |
| Schemas.AddressRoundTrip | shared/schemas.ts:37-45 | a complete address, written as an object, parses back to itself, absent optional fields staying absent |
| Schemas.MissingRequiredFieldRejected | shared/schemas.ts:38-43 | a missing or empty required field makes parsing fail and is named in the error |
| Schemas.ParseOptionalAddress | shared/schemas.ts:51-57 | `undefined` is accepted as no address. Every object whose five required fields are strings is accepted as an address; an accepted object has the five fields as strings, which are kept |
| Schemas.AddressImpliesOptional | shared/schemas.ts:37-57 | whatever `AddressSchema` accepts, `OptionalAddressSchema` accepts with the same five fields |
| Schemas.OptionalAcceptsEmptyName | shared/schemas.ts:51-57 | an empty `fullName` passes `OptionalAddressSchema` but not `AddressSchema` |
| Pin.MimeRun | api/pin.js:17 | the greedy MIME group ends exactly at the first non-MIME character |
| Pin.MatchDataUrl | api/pin.js:17-23 | a match yields groups that rebuild the input as `data:<mime>;base64,<payload>`, with a non-empty MIME over `[A-Za-z-+/]` and a non-empty one-line payload |
| Pin.MatchDataUrlComplete | api/pin.js:17-23 | every way of fitting the pattern is the match found: the match is complete and its groups are unique |
| Pin.ValidateAndDecode | api/pin.js:12-39 | "Invalid data URL" iff the input is not a non-empty string. An accepted input fits the pattern, its MIME starts with `image/`, and its buffer is the decoded payload of at most 5 MiB |
| Pin.DataUrlOutcome | api/pin.js:22-38 | a well-formed data URL is judged only by the `image/` prefix and the decoded size, and returns exactly the captured MIME type |
| Pin.DataUrlFormat | api/pin.js:17-20 | a non-empty string is refused as malformed iff it fits no `data:` pattern |
| Pin.SizeCapBoundary | api/pin.js:34-36 | exactly 5·1024·1024 decoded bytes are accepted; one more is refused |
| Pin.NonImageExample | api/pin.js:26-28 | a `text/plain` data URL is refused as not an image |
| Pin.MalformedExamples | api/pin.js:17-20 | `hello` and a data URL with an empty payload are malformed |
| Pin.PartHead | api/pin.js:63-73 | every part begins with the delimiter line `--boundary` CRLF |
| Pin.NftStorageBody | api/pin.js:62-78 | the nft.storage body starts with `--boundary` and ends with the close delimiter |
| Pin.PinataBody | api/pin.js:153-170 | the Pinata body starts with `--boundary` and ends with the close delimiter |
| Pin.NftStorageBodyLayout | api/pin.js:62-78 | the nft.storage body opens with the first delimiter and ends with the close delimiter `CRLF--boundary--CRLF`. The image bytes sit untouched right after the header text, and the length is header + image + footer |
| Pin.PinataBodyLayout | api/pin.js:153-170 | the Pinata body opens with the delimiter, carries the image untouched after the file part's head, and ends with the close delimiter |
| Pin.CloseDelimiterLength | api/pin.js:77 | with an ASCII boundary the close delimiter is eight bytes longer than the boundary |
| Pin.NftStorageRequest | api/pin.js:44-90 | a missing key is refused with its message. Otherwise the request carries the bearer key and the multipart body, with Content-Length equal to the body's length and Content-Type `multipart/form-data; boundary=<boundary>`; it is a POST to `api.nft.storage/upload` |
| Pin.BuildNftStorageRequest | api/pin.js:44-90 | pushing the parts and joining the buffers builds exactly that request |
| Pin.PinataRequest | api/pin.js:130-190 | the request is refused iff there is neither a JWT nor both a key and a secret. The headers carry `Authorization: Bearer` iff a JWT is given, and the key and secret otherwise. Content-Length equals the body's length, and Content-Type is `multipart/form-data; boundary=<boundary>`; it is a POST to `api.pinata.cloud/pinning/pinFileToIPFS` |
| Pin.BuildPinataRequest | api/pin.js:130-190 | filling in the header object conditionally builds exactly that request |
| Pin.NftStorageResult | api/pin.js:99-120 | success iff a 2xx response parses to a non-null value. Then `ipfsUrl` is `value.url` when truthy and `ipfs://<cid>` otherwise |
| Pin.PinataResult | api/pin.js:199-220 | success iff a 2xx response parses to a non-null value; `ipfsUrl` is then `ipfs://` + IpfsHash |
| Pin.PinataIpfsUrl | api/pin.js:203-208 | a Pinata answer with a string hash gives `ipfs://<hash>` |
| Pin.TemplateString | api/pin.js:105 | a string is interpolated as itself; a number as a non-empty decimal that starts with `-` iff it is negative |
| Pin.PinataEntry | api/pin.js:271-292 | the Pinata entry is an object whose `success` is `true` iff the request was built and Pinata answered with success; otherwise `success` is `false` and `error` is a string |
| Pin.SuccessBody | api/pin.js:283-292 | the 200 body is an object that carries `pinata` iff Pinata was tried |
| Pin.Failure | api/pin.js:294-298 | a caught error becomes a 500 whose body carries a non-empty `error`; a non-empty message is passed through as that error |
| Pin.PinAndRespond | api/pin.js:247-292 | after the field checks the handler answers 200 or 500 only. A 200 needs a decodable image and an nft.storage key, and its body carries `pinata` iff Pinata was requested and has credentials; a 500 carries a non-empty error |
| Pin.Handle | api/pin.js:230-300 | the handler answers 405 iff the method is not POST. A POST with an undefined or null body gets a 500 with the matching destructuring message, and 400 iff a POST body lacks a truthy name, description or imageBase64. A 200 needs a decodable image and an nft.storage key, and carries `pinata` iff Pinata was requested and has credentials. Every other answer carries a non-empty error |
| Pin.PinataCredentialsNeverFail | api/pin.js:271-281 | when the handler tries Pinata, the credential check inside it passes |
| Pin.PinataFailureRecorded | api/pin.js:283-292 | a failed Pinata upload is recorded as `{success: false, error}` and the answer is still 200 |
| Pin.MissingNftKeyFails | api/pin.js:45-47 | without an nft.storage key every well-formed request gets a 500 with that message |
| Todos.Trim | app.js:104 | the trimmed text is no longer than the input and neither starts nor ends with white space |
| Todos.TrimSplit | app.js:104 | the input is the trimmed text with white space only on either side |
| Todos.TrimEmpty | app.js:105 | text trims to empty iff it is all white space |
| Todos.TrimIdempotent | app.js:104 | trimming trimmed text changes nothing |
| Todos.Removed | app.js:112 | removal is never longer than the list and keeps no item with the id |
| Todos.RemovedFrom | app.js:112 | every kept item came from the list |
| Todos.RemovedAbsent | app.js:112 | a list without the id is kept whole |
| Todos.RemovedAppend | app.js:112 | removal works item by item over concatenation, so the kept items keep their order |
| Todos.RemovedSingle | app.js:112 | an item is kept exactly when its id differs |
| Todos.Active | app.js:126 | the open-items view is never longer than the list and holds only open items |
| Todos.ActiveFrom | app.js:126 | every open item shown came from the list |
| Todos.ActiveAppend | app.js:126 | the open-items view works item by item over concatenation, keeping order |
| Todos.Completed | app.js:35 | the done-items view is never longer than the list and holds only done items |
| Todos.CompletedFrom | app.js:35 | every done item shown came from the list |
| Todos.FindIndex | app.js:118 | `findIndex` gives the first position with the id, or none when no item has it |
| Todos.Toggled | app.js:117-120 | toggling flips `completed` on the first match only and keeps every id and text. An absent id changes nothing |
| Todos.AddedShape | app.js:103-106 | blank text leaves the list unchanged; otherwise exactly one open item with the trimmed text is prepended and the old items follow in order |
| Todos.Added | app.js:103-106 | adding leaves the list as it is, or puts one open item with the fresh id in front of the old list |
| Todos.RemoveUndoesAdd | app.js:103-112 | removing a fresh id right after adding it restores the list |
| Todos.ViewsPartition | app.js:33-37 | the open and done views split the list: together they hold every item exactly once |
| Todos.ClearedKeepsOpen | app.js:125-126 | an item survives clearing iff it is open |
| Todos.ClearedIdempotent | app.js:125-126 | clearing twice is clearing once and leaves the count unchanged |
| Todos.Cleared | app.js:125-126 | clearing leaves only open items, and removes exactly the done ones |
| Todos.ToggleTwice | app.js:117-120 | toggling the same id twice restores the list |
| Todos.FindIndexSameIds | app.js:118 | the first position of an id depends only on the items' ids |
| Todos.ToggleCount | app.js:97-120 | toggling a present item changes the count by exactly one; an absent id changes nothing |
| Todos.CommittedEdit | app.js:146-152 | an edit with text keeps every item and changes only the first match's text |
| Todos.CommittedBlank | app.js:143-145 | an edit to blank text removes every item with the id |
| Todos.Committed | app.js:142-154 | an edit never lengthens the list; with text it keeps the length, every id and every completed flag |
| Todos.Visible | app.js:33-37 | the shown items come from the list |
| Todos.VisibleViews | app.js:33-37 | `active` shows the open items and `completed` the done ones; anything else shows all. The active view has the count's length |
| Todos.CountTextPlural | app.js:97-99 | the label reads `item` iff exactly one item is left, `items` otherwise |
| Strings.NatString | app.js:99 | a count interpolated into text is a non-empty string of decimal digits |
| Strings.NatStringValue | app.js:99 | the decimal text of a count reads back as that count |
| Todos.Remaining | app.js:98 | the count of open items plus the done ones is the length of the list |
| Todos.CountText | app.js:99 | the label starts with the count in decimal and has more after it |
| Todos.TodoList.CountLabel | app.js:97-99 | the page's label reads `<n> item left` exactly when one item is open |
| Todos.TodoList.constructor | app.js:14-15 | the page starts with no items and the `all` filter |
| Todos.TodoList.AddTodo | app.js:103-109 | the list becomes the list with the text added; the filter is kept |
| Todos.TodoList.RemoveTodo | app.js:111-115 | the list loses every item with the id |
| Todos.TodoList.ToggleComplete | app.js:117-123 | the first match is flipped in place |
| Todos.TodoList.ClearCompleted | app.js:125-129 | the list keeps only its open items |
| Todos.TodoList.CommitEdit | app.js:142-154 | the list becomes the committed edit |
| Todos.TodoList.SetFilter | app.js:182-187 | a filter click sets the filter and keeps the list |
| Todos.TodoList.Shown | app.js:33-37 | the rendered items come from the list |
| Strings.IndexOf | netlify/functions/api.ts:11 | the position `replace` acts on: the pattern occurs there and at no earlier position, and `None` means it occurs nowhere |
| NetlifyApi.Rewritten | netlify/functions/api.ts:10-17 | the rewritten path always starts with `/api` |
| NetlifyApi.ReplaceRemovesPrefix | netlify/functions/api.ts:10-11 | on a mounted path, `replace` removes exactly the leading mount prefix |
| NetlifyApi.MountedPath | netlify/functions/api.ts:10-17 | a mounted path is rewritten from what follows the mount prefix |
| NetlifyApi.ApiPathUnchanged | netlify/functions/api.ts:10-17 | a path already under `/api` is unchanged |
| NetlifyApi.OtherPathPrefixed | netlify/functions/api.ts:15-17 | any other path gets `/api` prepended |
| NetlifyApi.RewriteIdempotent | netlify/functions/api.ts:10-17 | rewriting twice is rewriting once |
| NetlifyApi.MountRoot | netlify/functions/api.ts:10-17 | `/.netlify/functions/api` maps to `/api`, and with a trailing slash to `/api/` |
| NetlifyApi.NetlifyEvent.constructor | netlify/functions/api.ts:10 | the event holds the path the platform delivered |
| NetlifyApi.NetlifyEvent.RewritePath | netlify/functions/api.ts:10-17 | the two in-place assignments leave the rewritten path |

## Where the code and its tests disagree

The model follows the code in both cases; each is stated as a lemma.

- **`sanitizeFilePath`: traversal is reported first.** safe-command.test.ts:155-157 expects "outside base directory" for `../../../etc/passwd` under a base. The code reports the traversal error first, because the normalized path keeps its leading `..`. See `SafeCommand.ParentInputIsTraversal` and `SafeCommand.TraversalUnderBaseExample`.
- **`OptionalAddressSchema` accepts an empty `fullName`.** server/schemas.test.ts:164-168 expects an empty `fullName` to be rejected. The schema imposes no minimum length, so it is accepted. See `Schemas.OptionalAcceptsEmptyName`.

## Left out

- Process creation, signals, timers and `maxBuffer` enforcement are left out. `execFile` is a function parameter from the invocation to its outcome. `spawn` is a sequence of events fed to the session.
- `process.cwd()` is a parameter of the path model, required to be absolute.
- Node's `path` is rewritten here, for POSIX only.
- IEEE-754 doubles in the fee rules are modelled as exact reals. `toFixed(2)` is rounding to the nearest cent with halves away from zero, and `Math.round` is rounding with halves up. Binary representation artefacts of `toFixed` are not modelled.
- Zod internals are left out: issue messages, unknown-key stripping and coercion. An address error lists the invalid fields, not zod's messages.
- In api/pin.js, the following are parameters: the HTTPS requests, `JSON.parse`, `JSON.stringify`, base64 decoding and the random boundaries. The order of keys in the stringified metadata is therefore not modelled.
- In api/pin.js, console logging and the response-stream chunking (`data += chunk`) are left out. A response is the whole body text.
- The V8 messages of three `TypeError`s are written out as constants: reading a property of a `null` JSON result, and destructuring an undefined or a `null` body.
- The todo page's DOM rendering, event wiring, `localStorage` save/load and `uid()` are left out; identifiers are passed in. The "No todos yet." placeholder and the filter buttons' ARIA state are also left out.
- `serverlessExpress` forwarding in netlify/functions/api.ts is not part of this model.
- JavaScript numbers in dynamic values are integers here. A fractional `code` or `statusCode` is not represented.
- Spawn.SafeSpawn: the session records the validated invocation; the `process` handle it returns is not modelled.
- In `safeSpawn`, each chunk is decoded on its own with `data.toString()` (server/utils/safe-command.ts:194 and :204); a multi-byte character split across two chunks is garbled. Chunks are strings here, so that is not modelled.
- JSON arrays are not represented among the dynamic values. A template literal renders an array as its elements joined by commas, which `Pin.TemplateString` does not model.

## Findings

| source | as written | input that shows it | evidently intended | confidence | as-written member | corrected member |
|---|---|---|---|---|---|---|
| server/utils/safe-command.ts:89 | containment is the string test `absolutePath.startsWith(absoluteBase)` | base `/home/user/safe`, path `/home/user/safe-evil/x`: accepted and returned | only paths equal to the base or below it (next character `/`) are accepted | high (not executed) | SafeCommand.SiblingPrefixAccepted | SafeCommand.SanitizeFilePathContained |
