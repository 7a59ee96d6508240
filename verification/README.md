# APL receipts: a verified model

A Dafny model of the parts of the APL Sidecar that carry its promises: the receipt verifier, the
producer of live-run receipts with the run around it, the relay's admission control, the scrubbing
of secrets, and the second canonicalizer of the local playground. `dafny verify dfyconfig.toml`
verifies the whole project.

## What is modelled

| file | component |
|---|---|
| `Wrappers.dfy` | optional values |
| `Text.dfy` | code-point and UTF-16 key orders, sorted key listings, decimal integers |
| `JsonText.dfy` | JSON text: number grammar, escapes, the compact and the two-space printer, the reader |
| `Grammar.dfy` | the grammar of JSON without reader or writer: the reader accepts exactly it, and the writer's escapes and layouts are spelled out |
| `Utf8.dfy` | UTF-8 |
| `Json.dfy` | JSON values whose objects are dictionaries; strict and last-wins loading; canonical bytes |
| `Ratios.dfy` | `round(x, 6)` on exact numbers |
| `Ledger.dfy` | exposure added up per trust domain, rounded at every step |
| `Platform.dfy` | library calls as uninterpreted functions with their laws |
| `Receipts.dfy` | the typed view of a receipt and every check of `verify_receipt` |
| `Verify.dfy` | the verifier's loops; what an accepted receipt proves about its figures |
| `Members.dfy` | the members of a receipt with their types, and that the verifier reads what they say |
| `Acceptance.dfy` | what a receipt must say to be accepted: types, forms, figures, hash and signature, as an iff |
| `Chain.dfy` | `verify_chain`, composition of chains, history binding |
| `Replace.dfy` | `str.replace` and `in`; newline normalisation |
| `Scrub.dfy` | `_scrub` |
| `Producer.dfy` | exposure view, trust-domain view, receipt body, signing |
| `Agreement.dfy` | producer and verifier agree |
| `Exposure.dfy` | what the per-domain accounting conserves |
| `Ulids.dfy` | run identifiers |
| `Seats.dfy` | `resolve_seats` |
| `LiveRun.dfy` | one live run as a function of the disk, the replies and the command |
| `RunFacts.dfy` | the run as loops; gate safety, single-read fidelity, self-verification |
| `Conduct.dfy` | the gates written out: previous receipt, declared fragments, local-only values, order of refusals, exit codes |
| `Contents.dfy` | what the receipt of a run says, member by member |
| `Figures.dfy` | the per-domain figures, maxima and flag of a run's receipt, from its own events and ratios |
| `RunChain.dfy` | runs chained through their receipt files |
| `Relay.dfy` | `RelayState` as a class; request sequences |
| `RelayThreads.dfy` | interleaved requests |
| `Playground.dfy` | `canonical` in JavaScript against the Python canonical form |
| `PlaygroundReceipts.dfy` | the same on the receipts of live runs |
| `Trust.dfy` | the trust-domain rule on plain hosts |
| `Witness.dfy` | the laws assumed of the library calls have a model |
| `RunWitness.dfy` | concrete runs: one that finishes, two that send everything and leave no receipt |

Two ways of writing are used, as in the source. Expressions and recursion are functions. Code that
works step by step (the verifier's loops, the chain walk, the exposure loops, the send loop, the
relay's counters, the scrub loop) is a method with loop invariants, proved equal to a function or
to a property stated outright, and the theorems are about that function.

### How the outside world appears

* SHA-256, Ed25519, base64, `str`, `lower`, `strip`, the float printer and `json.dumps` of a
  local-only value are fields of the datatype `Platform`. The laws used are: a digest is 64
  lower-case hexadecimal digits; a signature verifies under the matching key; base64 decodes to what
  was encoded and is not empty for a signature; a ratio rounded to six places is printed as a
  non-integer JSON number that denotes it. Nothing is assumed about collisions: binding theorems
  end in "equal, or these two byte strings collide".
* A JSON number carries the text it was written with; integers also carry their value. A receipt is
  read into a typed record; a member of a type the verifier has no rule for is refused as ill typed.
* The disk is a function of the number of the read and the path, so every read may see a different
  file system. The local-only text is read as JSON with repeated names kept last; what only Python's
  laxer reader accepts (lone surrogates, `NaN`, `Infinity`) is an arbitrary function of the text, in
  which a string that has no UTF-8 encoding is never found in a payload and cannot be hashed. Making
  the output directory, sealing (policy, key pair, receipt file) and writing the combined answer each
  succeed or fail. Each adapter call comes back with an answer, a `TransportError`, or any other
  exception, chosen arbitrarily.
* Relay costs are whole micro-dollars, a day is a number, and the check and the booking of one
  request each take their own day.

### What the code does where its documentation says otherwise

* `verify_chain` does not constrain `prev_receipt_hash` of the first receipt, so a chain may start
  in the middle of a longer one (`Chain.JoinAccepted` shows what the seam needs).
* The verifier never recomputes `no_single_provider_saw_full`, and it recomputes
  `max_single_provider_exposure` only when `trust_domain_exposure` is present.
* `$` in the patterns also matches before a final newline, so a shape-checked string may be one
  character longer than the pattern says.
* An empty answer text is recorded as `no_response` although there was a response.
* The run promises a receipt for everything that was disclosed. Whether the body can be written is
  noticed only while it is built, after every payload was sent: a masking plan without `task_type` or
  with one that JSON cannot write (a date), and a local-only string with a lone surrogate, leave no
  receipt; so does an exception other than `TransportError`, or a failure to load policy and key or
  to write the file. `RunFacts.ReceiptIff` says exactly when a sending run leaves a receipt;
  `RunWitness.UnencodableRun` and `RunWitness.UntypedRun` are two that do not.
* "Every input is read exactly once" holds of `load_run_inputs`; the masking plan was read before, for
  the declared fragments, so a run reads it twice and may see two versions.
* Messages of `TransportError` are documented as always scrubbed. A secret is removed whatever the
  other secrets are iff it cannot overlap the replacement mark (`Scrub.ScrubIsCompleteIff`);
  `Scrub.StraddlingSurvives`, `Scrub.MarkedSecretSurvives` and `Scrub.BracketedSecretSurvives` show
  the others.
* A host that is called like a label of the trust-domain rule, such as `anthropic`, is taken for that
  vendor (`Trust.OneDomainIff`).
* The playground assigns members to a plain object, so a member named `__proto__` is not hashed
  there; and JavaScript prints some numbers differently, such as the ratio 1.0 as `1`.
  `Playground.PlaygroundHashesSameTextIff` has the exact condition, and
  `PlaygroundReceipts.UnlikeRatioRefused` applies it to produced receipts.

## Model

| member | source | states |
|---|---|---|
| Json.NoDuplicateKeys | packages/apl-verifier/src/apl_verifier/receipt.py:51-69 | the hook accepts exactly the member lists without a repeated name and then returns the dictionary; otherwise it names the first member that repeats an earlier one |
| Json.StrictRefines | packages/apl-verifier/src/apl_verifier/receipt.py:51-80 | on any parsed tree the strict loader is the last-wins loader cut down to trees in which no object at any depth repeats a name |
| Json.StrictRefinesLastWins | packages/apl-verifier/src/apl_verifier/receipt.py:72-80 | the strict reader accepts a text iff the lenient one does and no object in it repeats a name, and both then return one value |
| Json.LastPairWins | packages/apl-verifier/src/apl_verifier/receipt.py:54-80 | without the hook, a repeated name keeps the value of its last pair |
| Json.NumberIs | packages/apl-verifier/src/apl_verifier/receipt.py:72-80 | a number without fraction and exponent is read as the integer of its digits and sign; any other keeps its text |
| JsonText.PrintedParses | packages/apl-verifier/src/apl_verifier/receipt.py:72-86 | for every tree, style and depth, the printed text followed by anything that cannot continue a number parses to that tree with exactly that remainder |
| JsonText.TextRoundTrip | packages/apl-verifier/src/apl_verifier/receipt.py:72-86 | reading a written document gives back the tree, member order and repetitions included |
| JsonText.PrintInjective | packages/apl-verifier/src/apl_verifier/receipt.py:83-86 | two trees with one printed text are equal |
| Grammar.ReaderIsGrammar | packages/apl-verifier/src/apl_verifier/receipt.py:72-80 | a text is read as a tree iff it is a form of the JSON grammar for that tree, with blanks of the four kinds around its tokens and any of the spellings of each character |
| Grammar.NumberGrammar | packages/apl-verifier/src/apl_verifier/receipt.py:72-80 | the numbers of the reader are exactly those with an optional minus, a whole part without leading zero, an optional fraction and an optional exponent |
| Grammar.CompactCharacter | packages/apl-verifier/src/apl_verifier/receipt.py:83-86 | canonical text: every character stands for itself except quote, backslash and the controls, which have their two-character form or `\u00xx` in lower-case hexadecimal |
| Grammar.EscapesJoin | packages/apl-verifier/src/apl_verifier/receipt.py:83-86 | the text of a string is that of its characters, one after the other |
| Grammar.IndentedCharacter | src/apl_sidecar/cli/commands/run_live.py:405 | file text: the same, and everything beyond ASCII as `\uxxxx` or a surrogate pair |
| Grammar.ArrayLayout | packages/apl-verifier/src/apl_verifier/receipt.py:83-86 | brackets, commas and line breaks of a two-item array at any depth, in either style; without spaces in canonical text |
| Grammar.ObjectLayout | packages/apl-verifier/src/apl_verifier/receipt.py:83-86 | the same for objects, with the colon of each style |
| Json.FileIsAscii | src/apl_sidecar/cli/commands/run_live.py:404-406 | a receipt file is ASCII text, whatever the receipt contains, and ends with a line feed |
| Json.LoadOrdered | packages/apl-verifier/src/apl_verifier/receipt.py:72-86 | listing the members of every object in either key order and loading again restores the value |
| Json.WrittenReadsBack | packages/apl-verifier/src/apl_verifier/receipt.py:72-86 | every value, written canonically or as an indented file, is read back unchanged by both readers |
| Utf8.EncodeInjective | packages/apl-verifier/src/apl_verifier/receipt.py:85-86 | two strings with one UTF-8 encoding are equal |
| Utf8.CharacterIs | packages/apl-verifier/src/apl_verifier/receipt.py:85-86 | the bytes of each character are those of the table of RFC 3629, section 3, lead and tail ranges included |
| Json.CanonicalInjective | packages/apl-verifier/src/apl_verifier/receipt.py:83-92 | two values with the same canonical bytes are equal |
| Json.InsertionOrderIrrelevant | packages/apl-verifier/src/apl_verifier/receipt.py:83-86 | the canonical bytes do not depend on the order in which members were inserted |
| Text.SortedListingUnique | packages/apl-verifier/src/apl_verifier/receipt.py:85-86 | a key set has one sorted listing, under either key order |
| Receipts.Hex64Means | packages/apl-verifier/src/apl_verifier/receipt.py:28 | the hash pattern accepts 64 lower-case hexadecimal digits, alone or followed by one line feed, and nothing else |
| Receipts.UniqueIffNoneLost | packages/apl-verifier/src/apl_verifier/receipt.py:141-143 | a list has no duplicates iff its set is as large as it is long, which is how the source asks |
| Receipts.EventsShape | packages/apl-verifier/src/apl_verifier/receipt.py:112-122 | the event checks pass iff every event passes them; the first that fails gives the reason |
| Receipts.AccountVerdict | packages/apl-verifier/src/apl_verifier/receipt.py:213-219 | the accounting loop passes iff every event names seat and domain and has a signed seat ratio |
| Verify.Recompute | packages/apl-verifier/src/apl_verifier/receipt.py:209-221 | the loop that fills both dictionaries computes the rounded ledger of the events, or stops at the first event without seat, domain or ratio |
| Verify.CompareClaims | packages/apl-verifier/src/apl_verifier/receipt.py:222-254 | the comparison loops return the verdict of the claims against the recomputed totals, first failing check first |
| Verify.CheckTrustDomains | packages/apl-verifier/src/apl_verifier/receipt.py:168-254 | host agreement, recomputation and comparisons together give the trust-domain verdict, with the legacy branch when the aggregate is absent |
| Ledger.AccumulatePartitions | packages/apl-verifier/src/apl_verifier/receipt.py:209-221 | the ledger has exactly the domains of the shares and lists exactly each domain's seats, in order |
| Ledger.AccumulateBound | packages/apl-verifier/src/apl_verifier/receipt.py:211-220 | for any real ratios, rounding at every step leaves a total within half a millionth per share of the exact sum |
| Ledger.AccumulateExact | src/apl_sidecar/cli/commands/run_live.py:143-145 | on ratios that are already rounded to six places the rounded ledger is the exact sum |
| Ratios.TiesToEven | packages/apl-verifier/src/apl_verifier/receipt.py:220 | `round(x, 6)` takes the nearest multiple of a millionth, and the even one in the middle |
| Ledger.SomeDomainHasAllMeaning | packages/apl-verifier/src/apl_verifier/receipt.py:239-248 | with distinct seats, some domain's seat set is the whole seat set iff there are shares and all are in one domain |
| Verify.DomainFigures | packages/apl-verifier/src/apl_verifier/receipt.py:209-238 | a valid trust-domain verdict means: the claimed domains are those of the events, declared seat lists are that domain's seats, each claimed ratio is within (k/2 + 1) millionths of the exact sum of its k signed seat ratios |
| Verify.SummaryFigures | packages/apl-verifier/src/apl_verifier/receipt.py:239-254 | each declared maximum is near the largest exact sum of a domain, from both sides within the rounding; the seat maximum is within 1.5 millionths of the largest signed ratio; the all-fragments flag is false iff there are events and all declare one domain |
| Verify.AcceptedFiguresSound | packages/apl-verifier/src/apl_verifier/receipt.py:168-292 | every accepted receipt with per-domain figures has both properties, whatever its ratios |
| Verify.AcceptedSeatMaximum | packages/apl-verifier/src/apl_verifier/receipt.py:257-270 | in every accepted receipt, with or without per-domain figures, a declared seat maximum is within 1.5 millionths of the largest signed ratio |
| Members.Readable | packages/apl-verifier/src/apl_verifier/receipt.py:95-166 | the verifier has something to look at iff every required member is there and each member it looks at has a type it handles; what it then looks at is what the members say |
| Members.LexemeMeans | packages/apl-verifier/src/apl_verifier/receipt.py:185-186 | a float of a receipt is the decimal number its text is: all its digits as one natural number, moved by the exponent less the number of fraction digits |
| Acceptance.ShapeIs | packages/apl-verifier/src/apl_verifier/receipt.py:95-143 | the shape check passes iff run id, hashes, key id, payload digests, completions and local digests have their written-out forms and no id is there twice |
| Acceptance.FiguresAre | packages/apl-verifier/src/apl_verifier/receipt.py:168-270 | the trust-domain check passes iff hosts and domains agree, every event is accounted for, the claimed domains, totals and seat lists are those of the events, flag and maxima agree; totals are per-domain running sums and tolerances are a millionth |
| Acceptance.AcceptedIff | packages/apl-verifier/src/apl_verifier/receipt.py:273-292 | a receipt is accepted iff its members are well typed and well formed, its figures agree, the recorded hash is that of the other members, and the signature object is Ed25519 with a base64 value that is a signature of the recorded hash under the given key |
| Chain.VerifyChain | packages/apl-verifier/src/apl_verifier/receipt.py:295-310 | accepts iff every receipt is accepted, in the sense of `Acceptance.AcceptedIff`, and every later one names the one before it; otherwise points at the first bad receipt or broken link, everything before it being an accepted chain |
| Chain.PartAccepted | packages/apl-verifier/src/apl_verifier/receipt.py:295-310 | every contiguous part of an accepted chain is accepted |
| Chain.JoinAccepted | packages/apl-verifier/src/apl_verifier/receipt.py:295-310 | two chains concatenate to an accepted chain iff both are accepted and the seam is linked |
| Chain.AcceptedRecordsHash | packages/apl-verifier/src/apl_verifier/receipt.py:280-282 | an accepted receipt records the hash of its own body |
| Chain.SameHashSameReceipt | packages/apl-verifier/src/apl_verifier/receipt.py:83-92 | two receipts that record one hash are equal but for signatures, or their canonical bytes are a collision |
| Chain.AgreesBack | packages/apl-verifier/src/apl_verifier/receipt.py:297-310 | walking back from equal last hashes, agreement continues as long as no collision is met |
| Chain.HistoryBinding | packages/apl-verifier/src/apl_verifier/receipt.py:273-310 | two accepted chains, of any lengths and under any keys, whose last receipts record one hash agree as far back as both reach in every member but the signature, or two receipts at one place collide |
| Replace.NormalizeIdempotent | src/apl_sidecar/cli/commands/_common.py:42-47 | normalising newlines twice is normalising once, so a buffer hashes as it was sent |
| Replace.NormalizeIsUnified | src/apl_sidecar/cli/commands/_common.py:42-43 | CRLF, lone CR and LF each become one line feed; every other character is kept in its place |
| Scrub.ScrubMessage | src/apl_sidecar/adapters/byok/_http.py:30-34 | the loop computes the successive replacements, and each secret that cannot overlap the mark is gone from the result |
| Scrub.NothingRecreated | src/apl_sidecar/adapters/byok/_http.py:30-34 | replacing a secret creates no text, of those that cannot overlap a mark, which was not there before |
| Scrub.SecretGone | src/apl_sidecar/adapters/byok/_http.py:30-34 | one replacement removes every occurrence of its own secret when that cannot overlap the mark |
| Scrub.ScrubbedClean | src/apl_sidecar/adapters/byok/_http.py:26-34 | a secret that cannot overlap the mark is gone after the whole loop, for any message and any other secrets |
| Scrub.MarkedSecretSurvives | src/apl_sidecar/adapters/byok/_http.py:26-34 | a secret that is part of the mark is still in the message made of it after scrubbing, whatever the other secrets |
| Scrub.StraddlingSurvives | src/apl_sidecar/adapters/byok/_http.py:26-34 | for every secret that can overlap the mark there are a second secret and a message without the first, such that scrubbing brings the first in |
| Scrub.ScrubIsCompleteIff | src/apl_sidecar/adapters/byok/_http.py:26-34 | a secret, brackets or not, is removed from every message in the company of any other secrets iff it cannot overlap the mark |
| Scrub.BracketedSecretSurvives | src/apl_sidecar/adapters/byok/_http.py:26-34 | a concrete secret with a bracket is put back together by its own replacement |
| Producer.FillView | src/apl_sidecar/cli/commands/_common.py:179-186 | in any order of the payloads, the loop records length, rounded ratio and hash of each and raises the flag iff one equals the original |
| Producer.ComputeExposure | src/apl_sidecar/cli/commands/_common.py:168-190 | the exposure view, or a refusal iff the original is empty and some payload is not |
| Producer.ComputeView | src/apl_sidecar/cli/commands/run_live.py:123-157 | creating an entry once and then changing it in place yields the rounded ledger of the seats, with its maxima and flag |
| Producer.AppendSeats | src/apl_sidecar/cli/commands/run_live.py:178-206 | the loop appends exactly one event and one exposure entry per seat, in order, with that seat's figures |
| Producer.IdsDistinct | src/apl_sidecar/cli/commands/run_live.py:207-212 | with one seat per fragment, seat ids and provider ids of the events are pairwise distinct |
| Producer.BuildBody | src/apl_sidecar/cli/commands/run_live.py:160-243 | the body is built unless the exposure accounting refuses or the task type or a local-only value cannot be written; the refusal of duplicate ids never happens; what the body says is in `Contents.ReceiptContents` and `Figures.ReceiptFigures` |
| Contents.EventIs | src/apl_sidecar/cli/commands/run_live.py:179-206 | an event says provider id, seat, kind, trust domain, host and model, digest and length of the payload and of the answer text, the event type, and for an answer its completion, truncation and usage; nothing else |
| Contents.ReceiptContents | src/apl_sidecar/cli/commands/run_live.py:160-243 | the receipt of every run says, member by member: run id, task type, policy, provenance, one event per seat, one digest per local-only field, one rounded ratio per seat, whether no payload equals the original, and hash and signature of exactly that |
| Contents.BuffersAre | src/apl_sidecar/cli/commands/_common.py:150-165 | the original and the payloads those members speak of are the texts of the single reads with line ends unified |
| Contents.LocalTextIs | src/apl_sidecar/cli/commands/run_live.py:218-220 | what is hashed for a local-only field is its own text if it is a string and its JSON text otherwise |
| Figures.ReceiptFigures | src/apl_sidecar/cli/commands/run_live.py:222-232 | the receipt of every run lists each domain of its events once, sorted, with the exact sum of its seats' ratios and its seats in order; the maxima are the largest ratio and the largest sum; the flag is false iff all events are in one domain |
| Producer.ProviderInjective | src/apl_sidecar/cli/commands/run_live.py:76-83 | a provider id determines fragment and kind |
| Producer.SignReceipt | src/apl_sidecar/cli/commands/_signing.py:38-50 | the step-by-step copy yields the signed receipt, whose recorded hash is the hash the verifier recomputes over it |
| Agreement.SealsAsSigned | src/apl_sidecar/cli/commands/_signing.py:38-50 | hash and signature members added after hashing do not change the hash |
| Agreement.ReadsEvent | src/apl_sidecar/cli/commands/run_live.py:183-204 | the verifier reads every produced event as what the producer recorded, with and without a response |
| Agreement.SharesRecovered | packages/apl-verifier/src/apl_verifier/receipt.py:185-221 | the ratios and shares the verifier recovers from the signed events are the producer's own, and so is the seat maximum |
| Agreement.ShapeOk | packages/apl-verifier/src/apl_verifier/receipt.py:95-138 | what is read from a produced receipt passes every shape and duplicate check |
| Agreement.DomainsOk | packages/apl-verifier/src/apl_verifier/receipt.py:168-270 | and passes the recomputation, the flag and the maxima |
| Agreement.SignedReads | packages/apl-verifier/src/apl_verifier/receipt.py:95-292 | reading a signed body gives back what the producer meant, member by member |
| Agreement.SignedAccepted | src/apl_sidecar/cli/commands/run_live.py:160-243 | for all buffers, seats, hosts, replies and failures the signed body passes every check of the verifier under the matching key |
| Exposure.SumTracksChars | src/apl_sidecar/cli/commands/run_live.py:136-145 | the sum of a domain's signed ratios is within half a millionth per seat of the characters it received over the original's length |
| Exposure.DomainFigure | src/apl_sidecar/cli/commands/run_live.py:143-145 | a domain's figure is exactly the sum of its seats' signed ratios, so that bound holds for the figure too |
| Exposure.SeatsPartitioned | src/apl_sidecar/cli/commands/run_live.py:138-145 | each seat is listed by its own domain and by no other |
| Exposure.DomainsConserve | src/apl_sidecar/cli/commands/run_live.py:135-145 | the figures of all domains add up to the ratios of all seats |
| Exposure.DomainMaxDominates | src/apl_sidecar/cli/commands/run_live.py:151-154 | the trust-domain maximum is at least the seat maximum |
| Exposure.FlagMeaning | src/apl_sidecar/cli/commands/run_live.py:155-156 | the signed all-fragments flag is false iff there are seats and all share one trust domain |
| Ulids.DecodeEncode | src/apl_sidecar/cli/commands/_common.py:32-39 | the digits decode back to every value that fits |
| Ulids.EncodeOrdered | src/apl_sidecar/cli/commands/_common.py:32-39 | encodings of one length sort, by code point, exactly as their values |
| Ulids.NewUlidCorrect | src/apl_sidecar/cli/commands/_common.py:35-39 | every identifier matches the verifier's pattern and decodes to its 48-bit time and 80-bit random part |
| Ulids.LaterSortsLater | src/apl_sidecar/cli/commands/_common.py:35-39 | an identifier of a later millisecond sorts later, whatever the random parts |
| Seats.ResolveSeats | src/apl_sidecar/cli/commands/run_live.py:86-120 | the loops that fill the mapping return the seats in fragment order, or the first error in the order of the source |
| Seats.FaultIs | src/apl_sidecar/cli/commands/run_live.py:104-116 | one spec is malformed without a sign or with nothing on one side of the first one, then refused for an unknown fragment, a repeated one or an unknown kind, and otherwise taken |
| Seats.CollectedMeans | src/apl_sidecar/cli/commands/run_live.py:104-116 | a mapping that was filled without error has one spec per entry, each agreeing with it |
| Seats.CollectsAll | src/apl_sidecar/cli/commands/run_live.py:104-116 | conversely, specs that agree with a mapping and name no fragment twice are collected without error |
| Seats.AssignedCollects | src/apl_sidecar/cli/commands/run_live.py:104-119 | any permutation of one valid spec per fragment is collected to exactly its kinds |
| Seats.ResolvesIff | src/apl_sidecar/cli/commands/run_live.py:86-120 | with adapters that can be built, an explicit list is accepted iff it is, in some order, exactly one valid spec per fragment; the seats are then in fragment order and of those kinds |
| Seats.SpecOrderIrrelevant | src/apl_sidecar/cli/commands/run_live.py:104-120 | permuting the specs changes nothing |
| Seats.DefaultSeats | src/apl_sidecar/cli/commands/run_live.py:96-103 | without specs two fragments go to Anthropic and OpenAI, in this order, and any other number is refused |
| Seats.ResolvedDistinct | src/apl_sidecar/cli/commands/run_live.py:76-120 | whatever was resolved has one seat per fragment and pairwise distinct provider ids |
| LiveRun.LoadFragments | src/apl_sidecar/cli/commands/_common.py:88-116 | the loop accepts two to five declarations iff the ids match the pattern, differ, and their files exist; none declared means the two legacy fragments |
| LiveRun.FragmentIdsGood | src/apl_sidecar/cli/commands/_common.py:88-116 | accepted fragments are two to five, with distinct, non-empty ids without an equals sign |
| Conduct.FragmentsAre | src/apl_sidecar/cli/commands/_common.py:88-116 | the declarations are taken iff there are two to five of different ids, each a letter and up to 31 letters, digits, underscores and hyphens, with existing files; no declaration means the two legacy files |
| Conduct.PlanDeclares | src/apl_sidecar/cli/commands/_common.py:86-96 | without a plan the two legacy files are used; otherwise the declarations are those of the first of the two reads of the plan |
| LiveRun.ReadPayloads | src/apl_sidecar/cli/commands/_common.py:161-162 | the loop fills the payload buffers by one read each, or fails iff one read fails |
| LiveRun.LoadRunInputs | src/apl_sidecar/cli/commands/_common.py:150-165 | original, payloads, local-only values and plan, each read once by this function, in that order; texts that only Python's laxer JSON reader accepts are loaded too |
| LiveRun.BufferIsOneRead | src/apl_sidecar/cli/commands/_common.py:150-165 | every buffer is the normalised result of one read, at that read's own moment |
| LiveRun.LeakFindings | src/apl_sidecar/cli/commands/_common.py:200-218 | in any order of the dictionaries, the findings are exactly the local-only values of four characters or more found in a payload; there are none iff the inputs are leak-free |
| LiveRun.FieldFindings | src/apl_sidecar/cli/commands/_common.py:211-217 | the inner loop finds exactly the payloads that contain one value |
| RunFacts.Transmit | src/apl_sidecar/cli/commands/run_live.py:370-397 | the send loop sends each seat's buffer once, in order, records answers and transport failures, and leaves at the first other exception |
| RunFacts.SendThenSeal | src/apl_sidecar/cli/commands/run_live.py:367-422 | send loop, body, signature, verification and combined answer, one after another, return the run the theorems speak of, with its transmissions |
| RunFacts.ResolveAndSend | src/apl_sidecar/cli/commands/run_live.py:354-422 | seat resolution, accounting, consent and output directory, tried in this order before sending, return that same run; a refusal has an empty trace |
| RunFacts.RunGates | src/apl_sidecar/cli/commands/run_live.py:322-422 | leak gate and then chain gate, in the sense of `Conduct.ChainGateIs`, before seat resolution, return that same run; a refusal has an empty trace |
| RunFacts.RunLive | src/apl_sidecar/cli/commands/run_live.py:311-422 | the whole run, as loops, is the run the theorems are about |
| RunFacts.GateSafety | src/apl_sidecar/cli/commands/run_live.py:320-376 | something was sent iff fragments, loading, leak gate, chain gate, seats, accounting, consent and output directory all passed; and a run whose outcome is an earlier stop sent nothing |
| Conduct.FirstRefusalDecides | src/apl_sidecar/cli/commands/run_live.py:320-365 | with everything loaded, the first of these decides, in this order: a local-only value in a payload, no genuine previous receipt, seats that do not resolve, an empty original, no consent, no output directory; otherwise something is sent |
| Conduct.StopsUnloaded | src/apl_sidecar/cli/commands/run_live.py:311-320 | without usable fragments or with an unreadable input the run stops before any gate |
| Conduct.ExitCodeIs | src/apl_sidecar/cli/commands/run_live.py:354-360 | the run returns 2 iff seats did not resolve, and otherwise 0 or 1; a refusal never returns 0 |
| Conduct.ChainGateIs | src/apl_sidecar/cli/commands/run_live.py:338-352 | a previous receipt is let through iff the text read strictly loads to a receipt that is accepted under the key found for its own key id; its recorded hash is handed on |
| Conduct.ChainedRun | src/apl_sidecar/cli/commands/run_live.py:338-352 | a run that sent something while told to chain had read such a receipt, and its own receipt names that receipt's recorded hash |
| Conduct.UnchainedRun | src/apl_sidecar/cli/commands/run_live.py:338-339 | the receipt of a run that was not told to chain names no previous hash |
| RunFacts.SentPromptsClean | src/apl_sidecar/cli/commands/run_live.py:322-376 | no prompt that was sent contains, lower-cased, a stripped lower-cased local-only value of four characters or more |
| Conduct.NoValueSent | src/apl_sidecar/cli/commands/_common.py:200-218 | no slice of the lower-cased prompt is a value of the local-only file, lower-cased and then stripped, of four characters or more |
| RunFacts.SentIsWhatWasRead | src/apl_sidecar/cli/commands/run_live.py:316-376 | whatever happens to the files, the prompts sent are, in fragment order and at most one each, the normalised texts of the single reads |
| RunFacts.ReceiptRecordsWhatWasSent | src/apl_sidecar/cli/commands/run_live.py:367-408 | the receipt of a run has exactly one event per transmission, with hash and length of the very prompt sent, its host and model, also for seats whose transport failed |
| RunFacts.ReceiptIff | src/apl_sidecar/cli/commands/run_live.py:367-408 | a run that passed the gates leaves a receipt iff no exception but transport errors occurred while sending, task type and local-only values can be written, and policy, key and receipt file were at hand; without such an exception every seat was sent to |
| RunFacts.OnlyFirstReadsMatter | src/apl_sidecar/cli/commands/run_live.py:314-408 | two disks that agree on the reads at the start, two of the masking plan and one of every other file, give the same run: outcome, transmissions and receipt |
| RunFacts.RunsVerify | src/apl_sidecar/cli/commands/run_live.py:399-408 | no run ends with a receipt that its own verification refuses, and every receipt a run leaves is accepted under the run's key |
| RunFacts.ExitZeroIff | src/apl_sidecar/cli/commands/run_live.py:311-422 | the run returns 0 iff every gate was passed, everything could be written, the combined answer included, and every seat answered |
| Conduct.ReportedFailures | src/apl_sidecar/cli/commands/run_live.py:390-397 | the failures of a finished run are the fragments whose transport failed |
| RunWitness.FinishedRunExists | src/apl_sidecar/cli/commands/run_live.py:311-422 | a concrete machine and command meet all hypotheses, laws included; the run finishes and its receipt is accepted |
| RunWitness.UnencodableRun | src/apl_sidecar/cli/commands/run_live.py:218-220 | a concrete run with a lone surrogate in a local-only value passes every gate, sends both payloads without an exception in the loop, and leaves no receipt |
| RunWitness.UntypedRun | src/apl_sidecar/cli/commands/run_live.py:213-215 | the same for a masking plan without `task_type` |
| RunChain.WrittenFilePassesGate | src/apl_sidecar/cli/commands/run_live.py:338-352 | a receipt file as the run writes it is read back strictly and passes the chain gate with its own hash |
| RunChain.FinishedPrev | src/apl_sidecar/cli/commands/run_live.py:338-408 | the receipt of a finished run names as previous hash what its chain gate let through |
| RunChain.StepLinks | src/apl_sidecar/cli/commands/run_live.py:338-408 | a run told to chain onto the file of another produces a receipt linked to that one |
| RunChain.RunsFormAcceptedChain | src/apl_sidecar/cli/commands/run_live.py:338-408 | any number of runs of one installation, each chained on the one before, give a chain that `verify_chain` accepts |
| Relay.RelayState.constructor | src/apl_sidecar/relay/relay_server.py:51-56 | a new state has empty counters |
| Relay.RelayState.Check | src/apl_sidecar/relay/relay_server.py:61-76 | the gate's decision on the current counters, in the order of the source, without changing them |
| Relay.RelayState.Book | src/apl_sidecar/relay/relay_server.py:78-84 | adds one to the IP-and-day counter and to the session counter, and the estimate to the day's cost for a live run; nothing else changes |
| Relay.RelayState.HandleDemoRun | src/apl_sidecar/relay/relay_server.py:98-123 | new counters and reply of a whole request, the reply as in `Relay.ReplyIs`; a 400 reply leaves the counters alone |
| Relay.ReplyIs | src/apl_sidecar/relay/relay_server.py:61-123 | after any request sequence, the next reply is decided by the replies logged so far: 400 for scenario or length, a fallback for the first of IP limit, session limit, cost cap and missing provider, and live otherwise |
| Relay.ClipIs | src/apl_sidecar/relay/relay_server.py:101 | the session id is cut to its first 64 characters |
| Relay.CountersFaithful | src/apl_sidecar/relay/relay_server.py:78-84 | over every request sequence each IP-and-day counter and each session counter equals the number of 200 replies it stands for, and each day's cost is the estimate times the live replies booked that day |
| Relay.CountersSum | src/apl_sidecar/relay/relay_server.py:78-84 | over every request sequence the IP counters together, and the session counters together, are the number of 200 replies |
| Relay.SequentialSafety | src/apl_sidecar/relay/relay_server.py:58-112 | over every request sequence with a clock that never goes back, live replies per IP and day and per session stay within their limits and no day's cost exceeds the cap, even when midnight falls between check and booking |
| Relay.BadRequestChangesNothing | src/apl_sidecar/relay/relay_server.py:64-67 | a reply is 400 iff scenario or length is refused, and iff the counters are unchanged |
| Relay.SpentSessionStaysSpent | src/apl_sidecar/relay/relay_server.py:71-72 | a session at its limit is never served live again, whatever comes in between |
| RelayThreads.InvHolds | src/apl_sidecar/relay/relay_server.py:98-112 | every interleaving keeps booked plus approved-but-unbooked cost of each day within cap + (k-1) estimates |
| RelayThreads.InterleavedCostBound | src/apl_sidecar/relay/relay_server.py:153-156 | with at most k requests in flight no day's cost exceeds cap + (k-1) estimates |
| RelayThreads.LimitsInvHolds | src/apl_sidecar/relay/relay_server.py:98-112 | every interleaving keeps the counters equal to the booked replies, and booked plus approved live replies of each session and each IP and day within limit + (k-1) |
| RelayThreads.InterleavedLimits | src/apl_sidecar/relay/relay_server.py:69-72 | with at most k requests in flight live replies per session and per IP and day exceed their limits by at most k-1 |
| RelayThreads.BoundIsReached | src/apl_sidecar/relay/relay_server.py:98-112 | for every k some interleaving reaches the cost bound and both reply bounds at once |
| Text.OrdersDisagreeIffCrossing | src/apl_sidecar/app/local_playground/app.js:166-167 | code-point order and UTF-16 order disagree on two strings iff their first difference pits a character of U+E000..U+FFFF against one above U+FFFF |
| Text.UnitsAre | src/apl_sidecar/app/local_playground/app.js:166-167 | the numbers compared are the UTF-16 code units of RFC 2781 in JavaScript and the code points in Python |
| Playground.CanonicalPrints | src/apl_sidecar/app/local_playground/app.js:163-168 | for every value, the JavaScript text is the compact text of the tree with keys in UTF-16 order and numbers as JavaScript prints them |
| Playground.ListingsAgree | src/apl_sidecar/app/local_playground/app.js:166-167 | the two sorted listings of a key set are equal iff no two keys cross |
| Playground.TreesAgree | src/apl_sidecar/app/local_playground/app.js:163-168 | the trees the two languages print are equal iff no object at any depth has a crossing pair of keys and every number is printed alike |
| Playground.CanonicalizersAgreeIff | src/apl_sidecar/app/local_playground/app.js:163-168 | for every value and whatever JavaScript prints for its numbers, the two canonical texts are equal iff no object has a crossing pair of keys and every number is printed alike |
| Playground.WholeRatioDiffers | src/apl_sidecar/app/local_playground/app.js:164 | a ratio of 1.0, which JavaScript prints as `1`, makes the texts differ |
| Playground.StripBody | src/apl_sidecar/app/local_playground/app.js:179-181 | the loop keeps exactly the members other than hash, signature and `__proto__`, in any order |
| Playground.PlaygroundHashesSameTextIff | src/apl_sidecar/app/local_playground/app.js:178-184 | for every receipt, the playground hashes the verifier's text iff no keys cross in the body, every number in it is printed alike, and no member is named `__proto__` |
| PlaygroundReceipts.UnlikeRatioRefused | src/apl_sidecar/app/local_playground/app.js:178-184 | for every receipt of a run with a seat ratio that JavaScript prints differently, the playground hashes another text than the verifier |
| Trust.PortDoesNotMatter | packages/apl-verifier/src/apl_verifier/trust.py:29-62 | a port does not change the trust domain of a plain host |
| Trust.CaseDoesNotMatter | packages/apl-verifier/src/apl_verifier/trust.py:29-62 | two plain hosts that differ only in the case of letters are one domain |
| Trust.TrailingDotDoesNotMatter | packages/apl-verifier/src/apl_verifier/trust.py:29-62 | nor does a trailing dot |
| Trust.NormalizeHostIdempotent | packages/apl-verifier/src/apl_verifier/trust.py:29-52 | normalising any plain host twice is normalising once |
| Trust.LoopbackName | packages/apl-verifier/src/apl_verifier/trust.py:22-26 | both loopback names, with any port, are in the loopback domain |
| Trust.LoopbackSix | packages/apl-verifier/src/apl_verifier/trust.py:22-26 | so is the bare IPv6 loopback address |
| Trust.VendorHost | packages/apl-verifier/src/apl_verifier/trust.py:17-20 | the two vendor hosts are in the domains of their vendors |
| Trust.OwnDomain | packages/apl-verifier/src/apl_verifier/trust.py:55-62 | any other lower-case name is a domain of its own |
| Trust.OneDomainIff | packages/apl-verifier/src/apl_verifier/trust.py:55-62 | two plain hosts are one trust domain iff they normalise to one name or to two names of one label, the label itself among them |
| Witness.LawsSatisfiable | src/apl_sidecar/cli/commands/_signing.py:45-49 | the laws assumed of hash, signature, base64 and float printing hold together in a model |

## Left out

Contracts narrower than the code they model:

- Scrub.ScrubIsCompleteIff: quantifies over the other secrets; for one fixed list the exact condition is given when its secrets are bracket-free (`Scrub.BracketFreeListIff`), while a list with a secret that can overlap the mark may still be scrubbed clean when no companion puts a mark next to the right text.
- Trust.OneDomainIff: hosts are of letters, digits, hyphens, dots and colons; brackets, schemes, paths and white space are not modelled, and everywhere else the rule is an uninterpreted function that producer and verifier share.
- Json.WrittenReadsBack: strings are Unicode scalar values; a lone surrogate escape is refused here, while CPython keeps it and fails later, in the UTF-8 encoding. `NaN` and `Infinity` are refused here, so a previous receipt with one is refused by the chain gate of the model, while the code could accept it; CPython's limit on integer digits is not modelled.
- Verify.CheckTrustDomains: works on the typed view; a receipt with a member of another JSON type is refused as ill typed before any check. The code may raise another exception, coerce with `str`, refuse it later, or accept it: for instance `max_single_provider_exposure: null` without `trust_domain_exposure`, or `response_truncated: 1` next to a truncated completion.
- Acceptance.AcceptedIff: holds of that typed reading; a receipt with a member of another JSON type counts as not accepted.
- Agreement.SignedAccepted: ratios are exact; binary floating-point error in `round` and in the sums is not modelled, and the float printer is assumed to denote the rounded ratio.
- Relay.RelayState.Check: costs are integers in micro-dollars, so binary rounding of the running cost is not modelled.
- RelayThreads.InterleavedCostBound: each check and each booking is taken as indivisible; the code takes no lock.
- RunFacts.ReceiptIff: a task type that YAML can hold and JSON writes outside its grammar (`.nan`, `.inf`) counts as one that cannot be written, and an endpoint host or model taken from an undecodable environment variable is not modelled.
- RunFacts.ExitZeroIff: a failing print is not modelled.
- RunFacts.Transmit: a payload counts as sent once its adapter call starts; what the adapter does inside one call is arbitrary.

Not modelled:

- HTTP, sockets, TLS, timeouts, response size limits and the adapters' request formats.
- SHA-256, Ed25519, base64 and PEM files beyond the laws named above; key creation and key lookup on disk, which appear as a function from key ids to keys.
- YAML: the fragment declarations and the plan's `task_type` are functions of the text of the plan; whether a file exists does not change during a run.
- Printing, the warnings about seats in one domain, the combined answer file and the contents of the answer files; a failing write inside the send loop is one of the other exceptions.
- `_normalize_usage`: the cleaned usage is a given value of the answer.
- The preview and mock commands, the demo assessment text, the mock answers and the playground's page.
- `load_public_key`: a path without a usable Ed25519 key is the absence of a key.
- The packaged copy of the verifier and its bootstrapping.
