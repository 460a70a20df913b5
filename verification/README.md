# Covenant Radar, verified

A Dafny model of the parts of Covenant Radar whose promises no finite test can settle, with proofs of those promises.
`dafny verify dfyconfig.toml` checks the whole project.

| part of the program | modules |
|---|---|
| the audit hash chain (`audit/chain.py`, `audit/record.py`, `audit/store.py`) | `AuditPayload`, `PayloadAcceptance`, `AuditChain`, `ChainRanges`, `TamperEvidence`, `AuditStore`, on top of `Json`, `JsonRoundTrip`, `Utf8`, `Framing`, `Numerals`, `Runtime`, `Ordering` |
| the evidence bundle (`audit/bundle.py`) | `BundlePaths`, `BundleChain`, `EvidenceBundle` (builder), `BundleEscapes`, `BundleVerifier`, `BundleGuarantees`, `BundleTheorems`, `BuildOutcome`, `RowExport`, `RecordedBundles` |
| the text-only PDF writer in the same file | `PlainTextPdf` (writer), `PdfReader` (an independent reader), `PdfLayout` |
| the budget ledger and the guarded model call (`ai/budget.py`, `ai/client.py`) | `BudgetLedger`, `BudgetBounds`, `CeilingAnswers`, `ModelClient`, `CallConservation`, `SpendAccounting`, `CallCosts`, `CallOutcomes` |
| keyset pagination (`api/pagination.py`) | `Base64Url`, `CursorToken`, `CursorAuthenticity`, `KeysetPaging` |
| the reference signal generator and its validator (`evaluation/reference_portfolio`) | `Persistence`, `ReferenceSignals`, `ReferenceStream`, `ReferenceLabels`, `ReferenceCohorts`, `ReferenceDataset`, `Statements` |
| the UUIDv7 generator (`core/ids.py`) | `UuidV7` |

How the model is built:

- Code that only computes is a function. Code that changes things step by step is a method or a class whose contract
  ties the new state to such a function, and the theorems are about the function. `IsVerdict`, `Sound`, `Summarises`,
  `ReadPdf` and the like are independent statements of what the code is for.
- JSON is a real printer and a real parser; an object is a map, so equality is equality of Python dictionaries. UTF-8,
  unpadded base64url, decimal and hexadecimal text are written out.
- SHA-256 and HMAC are arbitrary functions. No theorem assumes that they are free of collisions: each says that its
  conclusion holds or that two named, different inputs have one digest.
- Unicode normalisation, `str.strip`, case folding, UUID and timestamp parsing are functions of the record `Runtime`
  (and `Host`, for reading bundles) whose few laws are stated in `Lawful`. Each set of laws is met by an example:
  `Runtime.PlainRuntime`, `BudgetLedger.ThirtyDayMonths`, `KeysetPaging.LawfulResource`, `ReferenceStream.ConstantSource`; that `fromisoformat` reads what
  `isoformat` writes, by `RowExport.InstantsCanBeRead`.
- Time is an integer, the calendar an arbitrary month function with the laws of `Calendar.Lawful`, money an exact number.
  Identifiers drawn with `uuid4` are arguments that must be new. Provider answers, clocks, random draws and table
  states are arbitrary inputs. The seed's jitter is an arbitrary function into 0..9999 ten-thousandths.
- A ZIP archive is the list of its named byte strings in order; reading by name gives the last one.

Where the code and its own description differ, the model follows the code:

- The text-only PDF loses its header. `io.BytesIO(initial)` starts at position 0, so the first object overwrites the 15
  header bytes (`PlainTextPdf.HeaderOverwritten`). All offsets, lengths and ids are right in the file as written
  (`PdfLayout.ReadPdfBack`), but it does not start with `%PDF`.
- The digest's framing is ambiguous for text that holds U+001F (`TamperEvidence.UnshapedRowsCollide`). The recorder
  refuses such text, and then nothing is ambiguous (`TamperEvidence.HeadFixesTokens`).
- A range check with nothing before the range does not look at the first link, so two range checks do not always add up
  to the whole (`ChainRanges.RangesCompose` gives the exact condition, `HeadlessPassesInParts` a failing chain).
- A call's record is lost, though the call is paid for, when the model name of an attempt does not fit its 50 characters
  or the writer fails, and exactly then (`SpendAccounting.AttemptLosesRecordIff`; `LongModelExample` is a failing
  call). A long prompt version even hides refusals (`CallConservation.UnfitNamesLeaveNoRecord`). What a run holds but
  does not record is exactly the cost of the lost attempts (`SpendAccounting.RunAccounted`).
- Pruning at the start of a month forgets the month before it, which doubles the rolling limits there
  (`BudgetBounds.MonthStartForgets`), and nothing stops a reservation from being settled twice
  (`CeilingAnswers.SettlingTwiceBreaksBudget`); `CeilingAnswers.SpendWithinBudget` bounds the spend of every run.
- A cursor whose primary takes more than 203 characters once escaped is encoded but not decoded again
  (`CursorToken.CursorRoundTrip`, `ControlCursorRefused`); none of the primaries the paging code writes does.
- A row whose key moves forward between requests can be returned twice (`KeysetPaging.MovedRowReturnsTwice`).
- A bundle whose text document ids become one path is built but not accepted (`BundleTheorems.CollidingIdentifiersRefused`),
  and `verify_bundle` lets exceptions escape for exactly the audit files of `BundleEscapes.EscapesExactly`.
- The signal generator also has an upper limit, 739858 days, where the start date leaves the calendar
  (`ReferenceDataset.GenerateReferenceCohorts`); a persistence summary fails for adverse days before day 30 of year 1
  (`Persistence.Summarise`).
- Generated total liabilities can be smaller than current liabilities plus long-term debt
  (`Statements.LiabilitiesCanBeExceeded`), exactly when the drawn ones exceed the debt but not all that is listed
  (`Statements.LiabilitiesCovered`).

## Model

| member | source | states |
|---|---|---|
| AuditPayload.FillMapping | src/covenant_radar/audit/chain.py:322-362 | the dictionary loop validates items in order, stops at the first refused one and keeps the last value of a repeated key |
| AuditPayload.NormaliseIsNormal | src/covenant_radar/audit/chain.py:322-389 | every accepted payload comes out in normal form: NFC text, finite numbers, and a lone trimmed reference under every personal field |
| AuditPayload.NormalIsFixed | src/covenant_radar/audit/chain.py:322-389 | a payload in normal form is accepted and left exactly as it is |
| AuditPayload.NormaliseIdempotent | src/covenant_radar/audit/chain.py:86-103 | normalising what normalisation returned changes nothing, so recorder, store and digest, which each normalise, agree |
| AuditPayload.CanonicalDetermines | src/covenant_radar/audit/chain.py:106-116 | two accepted payloads have the same canonical text if and only if their normal forms are equal |
| AuditPayload.KeyOrderIrrelevant | src/covenant_radar/audit/chain.py:106-116 | whatever the order of a mapping's items, it is accepted or refused alike, and when accepted its canonical text is the same |
| PayloadAcceptance.PersonalFieldIff | src/covenant_radar/audit/chain.py:365-367 | a field is personal if and only if its case-folded name spells one of the 28 names, hyphens or underscores alike |
| PayloadAcceptance.PayloadAcceptedIff | src/covenant_radar/audit/chain.py:322-389 | a payload is accepted if and only if it is a mapping in which, anywhere, there is no personal marker, surrogate text, non-finite number, unserialisable value or non-text key, and below every personal field exactly a mapping whose one key is reference, with text that is not blank |
| PayloadAcceptance.PayloadIsKept | src/covenant_radar/audit/chain.py:322-389 | an accepted payload keeps its keys, its scalars and lists, and its texts up to NFC; a reference is kept trimmed |
| PayloadAcceptance.PlainEmailRefused | src/covenant_radar/audit/chain.py:338-343 | an e-mail address as plain text under email is refused |
| JsonRoundTrip.LoadsDumps | src/covenant_radar/audit/chain.py:106-116 | for every JSON value, compact sorted printing followed by a full JSON parser returns the value, with and without ASCII escaping |
| JsonRoundTrip.DumpsInjective | src/covenant_radar/audit/chain.py:106-116 | the canonical text determines the value up to key order |
| JsonRoundTrip.DumpsPrintable | src/covenant_radar/audit/chain.py:83-116 | canonical text holds no control character, so never the digest's field separator |
| JsonRoundTrip.KnownItems | src/covenant_radar/audit/chain.py:106-116 | an example of the text form: a list without spaces |
| JsonRoundTrip.KnownString | src/covenant_radar/audit/chain.py:106-116 | examples of strings: an escaped line break, a non-ASCII letter kept |
| Utf8.DecodeEncode | src/covenant_radar/audit/chain.py:119-152 | strict UTF-8 decoding undoes encoding for every text, so hashing the bytes is hashing the text |
| Utf8.EncodeDecode | src/covenant_radar/audit/chain.py:119-152 | decoding is strict: bytes are read only when they are the encoding of what is read |
| Utf8.KnownEncodings | src/covenant_radar/audit/chain.py:119-152 | the examples of section 7 of RFC 3629 |
| Framing.RecoverableIff | src/covenant_radar/audit/chain.py:119-152 | fields joined with a separator can be told apart again if and only if none of them holds the separator |
| Framing.BoundaryMoves | src/covenant_radar/audit/chain.py:119-152 | a separator inside a field can be read as a field boundary: two different field lists with one joined text |
| AuditChain.CheckRowMeaning | src/covenant_radar/audit/chain.py:245-318 | the per-row checks pass exactly for a row that increases, links and hashes correctly, and otherwise report the first check that fails there |
| AuditChain.VerifyChain | src/covenant_radar/audit/chain.py:216-319 | an invalid range is refused; otherwise the verdict is success exactly when every selected row is sound, and else names the least unsound row with everything before it sound |
| AuditChain.VerdictUnique | src/covenant_radar/audit/chain.py:216-319 | the selected rows admit one verdict only, so the specification of the verifier is complete |
| ChainRanges.BetweenIsSlice | src/covenant_radar/audit/chain.py:231-244 | on rows ordered by sequence a range filter selects a contiguous slice |
| ChainRanges.SelectedIsSlice | src/covenant_radar/audit/chain.py:231-244 | a bounded check of increasing rows reads exactly one row of context and then the range |
| ChainRanges.WholeImpliesRange | src/covenant_radar/audit/chain.py:216-319 | a chain that verifies as a whole verifies over every valid range |
| ChainRanges.RangesCompose | src/covenant_radar/audit/chain.py:216-319 | the whole chain verifies if and only if it verifies up to k, verifies from k + 1 on, and, when nothing precedes k + 1, starts with a genuine first row |
| ChainRanges.HeadlessPassesInParts | src/covenant_radar/audit/chain.py:216-319 | a failing input: one row numbered 2 that claims a predecessor passes up to 1 and from 2 on, and fails as a whole |
| TamperEvidence.FramingExact | src/covenant_radar/audit/chain.py:119-152 | the digest material separates its eight fields exactly when actor, event type, subject type and link hold no separator; the other four never do |
| TamperEvidence.UnshapedRowsCollide | src/covenant_radar/audit/chain.py:119-152 | outside the recorder, two different events whose type fields hold the separator have the same digest |
| TamperEvidence.ActorTokenInjective | src/covenant_radar/audit/record.py:143-178 | for recorded rows an actor id, an actor label and no actor always give different tokens |
| TamperEvidence.MaterialDetermines | src/covenant_radar/audit/chain.py:119-152 | the digest material of recorder-shaped rows determines every hashed field |
| TamperEvidence.TimestampLayout | src/covenant_radar/audit/chain.py:392-395 | a hashed timestamp is ISO 8601 with microseconds and a zero offset, field by field |
| TamperEvidence.MaterialFields | src/covenant_radar/audit/chain.py:119-152 | the digest material of a recorder-shaped row, split at its separator, is sequence, timestamp, actor, event type, subject type, subject, canonical payload and link, in this order |
| TamperEvidence.SameHeadSameChain | src/covenant_radar/audit/chain.py:216-319 | two verified recorder-shaped chains that end in one digest are equal in length and row by row, or exhibit a hash collision |
| TamperEvidence.MaterialFixesTokens | src/covenant_radar/audit/chain.py:119-152 | a recorder-shaped row fixes all eight tokens of any row with the same material, whatever that row looks like |
| TamperEvidence.HeadFixesTokens | src/covenant_radar/audit/chain.py:216-319 | against any verifying chain at all, the last digest of a recorder-shaped chain fixes its length and every token of every row, or a collision is exhibited |
| ChainRanges.TailDropUndetected | src/covenant_radar/audit/chain.py:216-319 | cutting rows off the end leaves a chain that verifies: the one change verification cannot see |
| AuditStore.InMemoryAuditStore.Append | src/covenant_radar/audit/store.py:82-120 | appends the next linked row or, when the payload or the digest is refused, leaves the store unchanged; the chain stays sound and numbered 1..n |
| AuditStore.InMemoryAuditStore.Rows | src/covenant_radar/audit/store.py:122-136 | on a reachable store a valid range gives exactly the slice of appended rows numbered from..to, clamped to what exists; an invalid one is refused |
| AuditStore.InMemoryAuditStore.Verify | src/covenant_radar/audit/store.py:138-147 | every reachable store verifies over every valid range; only an invalid range is an error |
| AuditStore.AppendKeepsReachable | src/covenant_radar/audit/store.py:82-120 | appending one row keeps the chain sound and its sequences 1..n |
| AuditStore.EveryRunVerifies | src/covenant_radar/audit/store.py:82-147 | after any sequence of accepted and refused appends the store verifies over every valid range |
| AuditStore.CleanedTextIsClean | src/covenant_radar/audit/record.py:181-189 | accepted text is not blank, is NFC-stable and holds no control character |
| AuditStore.ResolvedActorShaped | src/covenant_radar/audit/record.py:143-178 | an actor resolves to an id or to a clean label that is not itself a UUID, never to both |
| AuditStore.RecordedRowShaped | src/covenant_radar/audit/record.py:61-91 | a validated request is always hashable; its row comes one place after the rows before it, carries the request's types, instant, subject, actor and payload, and satisfies the framing condition |
| AuditStore.ValidateIff | src/covenant_radar/audit/record.py:61-91 | a request validates if and only if its types and request id are not blank, within 100, 50 and 40 characters and free of control characters, its subject and actor resolve, text within 200 characters, its instant is aware and its payload is accepted; the record holds the trimmed, normalised texts |
| AuditStore.RecordEvent | src/covenant_radar/audit/record.py:61-91 | a request is stored exactly when it is acceptable as ValidateIff says; the stored row carries exactly what was requested, linked to the last row; a refused request leaves the store as it was |
| AuditStore.RecordedIsSound | src/covenant_radar/audit/record.py:61-91 | any run of requests leaves a sound chain of recorder-shaped rows |
| AuditStore.RecordedStoreIsBound | src/covenant_radar/audit/record.py:61-91 | the last digest of a store filled through the recorder fixes every token of every row against any other verifying chain, or a collision is exhibited |
| BundlePaths.BuiltPathsValid | src/covenant_radar/audit/bundle.py:892-910 | every path the builder gives to a document passes the verifier's path check |
| BundlePaths.UuidPathsDiffer | src/covenant_radar/audit/bundle.py:892-901 | documents named by different UUIDs never share a path, whatever follows the identifier |
| BundlePaths.PlainNamesKept | src/covenant_radar/audit/bundle.py:892-901 | an identifier and a file name of safe characters within their limits are kept in the path as they are |
| BundlePaths.TraversalRefused | src/covenant_radar/audit/bundle.py:904-910 | no accepted path is absolute, goes up anywhere, or holds a backslash or a colon |
| BundlePaths.TextIdentifiersCollide | src/covenant_radar/audit/bundle.py:900-901 | text identifiers can become one path: "a b" and "a_b" |
| BundleChain.AuditRowDecodes | src/covenant_radar/audit/bundle.py:553-638 | dropping the null members of an audit row never changes what it decodes to |
| BundleChain.ScanIsVerdict | src/covenant_radar/audit/bundle.py:531-550 | the row-by-row scan used on decoded rows gives the verdict of the chain verifier |
| EvidenceBundle.StreamDocument | src/covenant_radar/audit/bundle.py:420-452 | streaming chunk by chunk yields the joined bytes, or the error of the first bad chunk, an exceeded size, a broken stream or a changed digest |
| EvidenceBundle.StoreDocument | src/covenant_radar/audit/bundle.py:384-464 | each document is exported from its stream or written as an absence record, by the same branches as the source |
| EvidenceBundle.VerifyMappings | src/covenant_radar/audit/bundle.py:531-550 | the verdict on JSON rows is the chain verifier's verdict on their decoding, which RowExport.ExportedVerdict shows to be the verdict on the rows themselves |
| EvidenceBundle.WriteDocuments | src/covenant_radar/audit/bundle.py:253-265 | documents are written in identifier order and a repeated identifier stops the build |
| Ordering.SortedByKey | src/covenant_radar/audit/bundle.py:254-267 | documents are taken, and manifest lines listed, in the order of their text keys |
| EvidenceBundle.BuildBundle | src/covenant_radar/audit/bundle.py:193-295 | the whole build: identifier, audit file, PDF limits, documents, manifest and its digest; BuildOutcome.BuiltIff says when, BundleTheorems.FixedFilesRead what it holds |
| BuildOutcome.BuiltIff | src/covenant_radar/audit/bundle.py:193-295 | a bundle is built if and only if its id is not blank, every row has its seven members, the rows decode without reaching a sequence below one or the supplied verdict is well formed, the rendering has one byte to eight mebibytes, and documents have different ids and are each served whole or have a recordable reason |
| BundleGuarantees.DownloadExact | src/covenant_radar/audit/bundle.py:420-452 | a download succeeds if and only if every chunk is usable, the stream completes, and size and digest match what was recorded; its result is the concatenated chunks |
| BundleGuarantees.DocumentWritten | src/covenant_radar/audit/bundle.py:384-503 | one document becomes its exact bytes, or one absence record with its note, under the right path, and its manifest line carries its digest and size |
| BundleGuarantees.LoadCanonical | src/covenant_radar/audit/bundle.py:949-956 | canonical bytes of an object are detected as UTF-8 and read back as that object |
| BundleGuarantees.PermutedDistinct | src/covenant_radar/audit/bundle.py:267 | whether file names repeat does not depend on the order in which the manifest lists them |
| BundleGuarantees.SealedSound | src/covenant_radar/audit/bundle.py:268-289 | removing the two digest members from the manifest gives back exactly what was hashed |
| BundleVerifier.CheckNames | src/covenant_radar/audit/bundle.py:690-703 | no failure exactly when count, uniqueness, safety and total size of the file names hold; reported is exactly what fails |
| BundleVerifier.CheckSeal | src/covenant_radar/audit/bundle.py:718-733 | no failure exactly when the manifest digest is well formed, covers the unsigned manifest and is repeated in manifest_file; reported is exactly what fails |
| BundleVerifier.CheckEntries | src/covenant_radar/audit/bundle.py:746-776 | no failure exactly when every entry is safe, unique, present, and matches digest and size; every defective entry is reported for what is wrong in its place, and nothing else is |
| BundleVerifier.CheckComplete | src/covenant_radar/audit/bundle.py:778-782 | no failure exactly when all required files are present and no payload file is unlisted; reported are exactly the absent and the unlisted ones |
| BundleVerifier.CheckChain | src/covenant_radar/audit/bundle.py:805-863 | re-verifies the embedded rows over the recorded range and compares with both stored verdicts and the manifest; gives up exactly on the audit files of PayloadEscapes |
| BundleVerifier.RecheckRows | src/covenant_radar/audit/bundle.py:814-838 | decoding, range and verification of the embedded rows; that decoding undoes exporting is RowExport.ExportDecodes |
| BundleVerifier.VerifyArchive | src/covenant_radar/audit/bundle.py:688-802 | accepts exactly the sound archives, reports exactly the defects of any other, all of them, and returns manifest, digest and chain verdict as found; an exception escapes exactly when the manifest is an object and the audit file is one that EscapesExactly describes |
| BundleEscapes.EscapesExactly | src/covenant_radar/audit/bundle.py:805-863 | re-verification raises an uncaught exception if and only if a row's sequence overflows before any unreadable row, or all rows are readable and a bound is a list, an object or overflows (unless a lower bound of bad text hides it), or a non-object item is met under a bound or after a sound prefix |
| BundleEscapes.ConcreteEscapes | src/covenant_radar/audit/bundle.py:805-863 | two such audit files: the row 1, and a lower bound that is a list |
| BundleGuarantees.AuditFilesThatEscape | src/covenant_radar/audit/bundle.py:805-863 | an archive that holds either of them in canonical bytes makes the verifier raise |
| BundleTheorems.NamesRepeatAmongDocuments | src/covenant_radar/audit/bundle.py:249-289 | file names of a built archive repeat if and only if two documents share a path |
| BundleTheorems.AuditRead | src/covenant_radar/audit/bundle.py:228-251 | the audit file of a built archive reads back as what was written, with the manifest's verdict in both of its places |
| BundleTheorems.FixedFilesRead | src/covenant_radar/audit/bundle.py:193-295 | read back by name, a built archive holds the reconstruction, the requested rows member by member in the audit file, and as PDF the renderer's own bytes for the verdict stored there, which the manifest repeats |
| RowExport.IsoInjective | src/covenant_radar/audit/reconstruct.py:545-546 | the exported form of an instant determines it |
| RowExport.ExportDecodes | src/covenant_radar/audit/bundle.py:553-638 | a row written as its JSON mapping and decoded again is the same row, whatever further members the mapping has |
| RowExport.ExportedVerdict | src/covenant_radar/audit/bundle.py:531-550 | the verdict on exported rows is the verdict on the rows they were exported from |
| RecordedBundles.SoundChainBundle | src/covenant_radar/audit/bundle.py:193-295 | a sound chain that is exported is called verified in the manifest and found sound again by the verifier; within limits and with UUID documents the bundle is accepted |
| RecordedBundles.BrokenChainBundle | src/covenant_radar/audit/bundle.py:641-664 | an unsound chain gets a stored verdict that names its first unsound row: sequences, hashes and links of that row and the one before |
| RecordedBundles.RecordedBundleVerifies | src/covenant_radar/audit/bundle.py:193-295 | whatever was requested of the recorder, its rows exported in a bundle are found sound by builder and verifier |
| RecordedBundles.SuppliedVerdictKept | src/covenant_radar/audit/bundle.py:667-685 | a supplied verdict reaches the manifest: flag, failure and range as given, status and message as given or by default |
| RecordedBundles.SuppliedRangeRechecked | src/covenant_radar/audit/bundle.py:805-863 | a verdict supplied for a range is checked again over that range, with the row before it as context |
| RecordedBundles.SuppliedRangeVerifies | src/covenant_radar/audit/bundle.py:805-863 | so a supplied verdict over any range of a sound chain is accepted if and only if it says that the range holds |
| BundleTheorems.BuiltVerifies | src/covenant_radar/audit/bundle.py:193-295 | a built archive is accepted if and only if it keeps the size limits, no two documents share a path, and the recorded verdict is the one its rows give; its manifest digest is the one returned |
| BundleTheorems.ComputedVerdictHolds | src/covenant_radar/audit/bundle.py:531-550 | a verdict the builder computed is always the one the exported rows give |
| BundleTheorems.UuidDocumentsApart | src/covenant_radar/audit/bundle.py:892-901 | documents named by UUIDs never share a path |
| BundleTheorems.ComputedBundleVerifies | src/covenant_radar/audit/bundle.py:193-295 | every bundle within the limits with UUID documents and a computed verdict is accepted with that same verdict |
| BundleTheorems.CollidingIdentifiersRefused | src/covenant_radar/audit/bundle.py:900-901 | two purged documents "a b" and "a_b" build an archive the verifier refuses |
| BundleTheorems.EachDocumentOnce | src/covenant_radar/audit/bundle.py:384-503 | each referenced document is in the archive under exactly one entry, as the exact bytes its store served or as its absence record, and missing_documents lists exactly the absent ones in order |
| BundleTheorems.AbsenceRecordReads | src/covenant_radar/audit/bundle.py:475-503 | an absence record reads back with the document's id, file name, recorded hash, storage key and reason |
| BundleTheorems.ManifestDescribes | src/covenant_radar/audit/bundle.py:268-277 | the manifest read back names the bundle, the forecast, the moment, the schema version and the digest algorithm that were asked for |
| BundleTheorems.EachDocumentListed | src/covenant_radar/audit/bundle.py:453-503 | every referenced document has a manifest line with its path, id, file name, whether it is present, its recorded digest, and its reason when it is absent |
| BundleTheorems.MissingDescribed | src/covenant_radar/audit/bundle.py:453-503 | the manifest's missing documents are exactly the ones not exported, in order, each with id, file name, reason and the path of its record |
| BundleTheorems.ListedExactly | src/covenant_radar/audit/bundle.py:746-782 | in an accepted archive the payload names are exactly the listed paths |
| BundleTheorems.SameDigestSameFiles | src/covenant_radar/audit/bundle.py:688-802 | two accepted archives with one manifest digest hold the same payload names and bytes and the same unsigned manifest, or exhibit a hash collision |
| PlainTextPdf.WrapLine | src/covenant_radar/audit/bundle.py:1039-1042 | the cutting loop produces the pieces of at most 105 characters |
| PlainTextPdf.LayOut | src/covenant_radar/audit/bundle.py:1030-1043 | the lines of all sections in order, each section closed by an empty line |
| PlainTextPdf.DrawPage | src/covenant_radar/audit/bundle.py:1064-1071 | the text operators of one page, escaped and joined into its stream |
| PlainTextPdf.BuildObjects | src/covenant_radar/audit/bundle.py:1045-1080 | ids handed out while the list grows and objects filled in afterwards give the intended object at every id |
| PlainTextPdf.Buffer.Write | src/covenant_radar/audit/bundle.py:1082-1095 | an in-memory stream created with content is overwritten from position 0 on |
| PlainTextPdf.WriteObjects | src/covenant_radar/audit/bundle.py:1083-1088 | the recorded offset of every object is where it starts in what was written |
| PlainTextPdf.RenderPdf | src/covenant_radar/audit/bundle.py:1027-1096 | the final buffer is body, cross-reference table and trailer, with nothing of the initial content left |
| PlainTextPdf.HeaderOverwritten | src/covenant_radar/audit/bundle.py:1082-1088 | the PDF header never survives: every document starts with its first object |
| PdfReader.EscapedIsEach | src/covenant_radar/audit/bundle.py:1068 | three replacements in a row escape each character on its own |
| PdfReader.ReadStreamText | src/covenant_radar/audit/bundle.py:1064-1071 | a content stream shows exactly the page's lines |
| PdfLayout.WrappingLossless | src/covenant_radar/audit/bundle.py:1030-1043 | wrapping neither loses nor reorders a character, and no line is longer than 105 |
| PdfLayout.PagingLossless | src/covenant_radar/audit/bundle.py:1044 | pages concatenate to the lines, hold at most 52, and all but the last are full |
| PdfLayout.EntryWidth | src/covenant_radar/audit/bundle.py:1092-1093 | a cross-reference entry has the required 20 bytes if and only if its offset fits ten digits |
| PdfLayout.OffsetBack | src/covenant_radar/audit/bundle.py:1083-1093 | every cross-reference entry holds the byte offset of its object |
| PdfLayout.ReadTableBack | src/covenant_radar/audit/bundle.py:1089-1095 | startxref leads to the table, which announces the number of objects |
| PdfLayout.ReadTrailerBack | src/covenant_radar/audit/bundle.py:1091-1095 | the trailer's size is the table's and its root is the catalog |
| PdfLayout.OpenBack | src/covenant_radar/audit/bundle.py:1082-1093 | following entry k leads to object k and its whole content |
| PdfLayout.ReadPageBack | src/covenant_radar/audit/bundle.py:1063-1080 | following a page's /Contents id and cutting by /Length gives that page's lines |
| PdfLayout.ReadPdfBack | src/covenant_radar/audit/bundle.py:1044-1096 | an independent reader that follows startxref, the table, the trailer, the catalog, the kids, the contents and the lengths gets back exactly the pages |
| PdfLayout.RenderedLinesBack | src/covenant_radar/audit/bundle.py:1027-1096 | what was rendered for any sections reads back as their lines in order, at most 52 on a page |
| BudgetLedger.Ledger.Prune | src/covenant_radar/ai/budget.py:278-284 | the pop loop removes exactly the leading entries of earlier months |
| BudgetLedger.Ledger.Reserve | src/covenant_radar/ai/budget.py:178-235 | refuses by the first ceiling in order hour, day, budget with its retry time, or appends one held entry |
| BudgetLedger.Ledger.Settle | src/covenant_radar/ai/budget.py:237-256 | overwrites the cost of the one entry with the reservation's id; refuses a negative actual cost; reports an unknown reservation |
| BudgetLedger.Ledger.Used | src/covenant_radar/ai/budget.py:258-272 | prunes and reports the two windows and the month's spend |
| BudgetLedger.Calendar.MonthsAreOrdered | src/covenant_radar/ai/budget.py:293-300 | month starts are monotone, and two instants share a month exactly when the later one comes before the next month |
| BudgetBounds.RunKeepsInv | src/covenant_radar/ai/budget.py:178-284 | every run keeps: pruned entries belong to earlier months, and each grant saw fewer than the limit in its window |
| BudgetBounds.RollingWindowBound | src/covenant_radar/ai/budget.py:193-212 | under a clock that never goes back, no hour and no day holds more grants of one month than its limit; a window inside one month holds no more than the limit in all, any other one at most twice it |
| BudgetBounds.MonthStartForgets | src/covenant_radar/ai/budget.py:278-284 | the factor two is reached for all limits and at every month start: n calls in a month's last microsecond and n in the next one's first, n the hourly limit |
| CeilingAnswers.PruneTwice | src/covenant_radar/ai/budget.py:278-284 | pruning earlier in between changes nothing: only the last prune counts |
| CeilingAnswers.NothingGrantedSees | src/covenant_radar/ai/budget.py:178-284 | operations that grant nothing leave the instants a later decision sees as they were, and without settlements the costs too |
| CeilingAnswers.FullUntilEarliestLeaves | src/covenant_radar/ai/budget.py:193-212 | a full window stays full until its earliest entry leaves, and from then on it is not |
| CeilingAnswers.RateRefusalExact | src/covenant_radar/ai/budget.py:193-212 | after an hourly or daily refusal, and any later refusals, usage queries and settlements, an attempt is refused by that ceiling if and only if it comes before retry_at and in the same month |
| CeilingAnswers.BudgetRefusalExact | src/covenant_radar/ai/budget.py:214-226 | after a budget refusal, and any later refusals and usage queries, the amount is over the budget again if and only if it comes before retry_at or exceeds the budget alone; from retry_at on the month's spend is zero |
| CeilingAnswers.RefusalReports | src/covenant_radar/ai/budget.py:193-226 | a refusal reports a rate exactly at its limit or a spend over the budget, and a retry time that lies ahead |
| CeilingAnswers.SpendSeen | src/covenant_radar/ai/budget.py:214-226 | pruned entries lie in earlier months, so the ledger sees all of the month's spend |
| CeilingAnswers.SpendWithinBudget | src/covenant_radar/ai/budget.py:178-256 | over every run, every month's spend stays within the budget plus what the month's settlements raised, each by the new cost less the one it replaced |
| CeilingAnswers.RaisesAreOverruns | src/covenant_radar/ai/budget.py:237-256 | when each reservation is settled at most once, the raises are exactly the overruns of the estimates |
| CeilingAnswers.SettlingTwiceBreaksBudget | src/covenant_radar/ai/budget.py:237-256 | overruns of estimates do not bound the spend in general: settling one reservation twice, which the code allows, spends 15 of a budget of 10 with no overrun |
| ModelClient.Client.Fallback | src/covenant_radar/ai/client.py:534-588 | a cassette try leaves one zero-cost record and returns its response or the original failure; a cassette name that does not fit raises before it |
| ModelClient.Client.Reserved | src/covenant_radar/ai/client.py:354-368 | a refused reservation is recorded and raised; a granted one is the newest held entry |
| ModelClient.Client.Succeed | src/covenant_radar/ai/client.py:468-491 | a response is settled at its actual cost, which CallCosts.AttemptsPriced gives in tokens and prices, recorded, and only then returned |
| ModelClient.Client.Fail | src/covenant_radar/ai/client.py:372-467 | a failure is settled at the estimate and recorded, then retried once, answered from the cassette or raised |
| ModelClient.Client.Turn | src/covenant_radar/ai/client.py:353-491 | one turn of the retry loop does one pass and leaves the rest of the call to the next turn |
| ModelClient.Client.Invoke | src/covenant_radar/ai/client.py:300-491 | a provider name that does not fit raises first; otherwise the retry loop does exactly the effect of one call: same outcome, same ledger history, same records in order |
| CallConservation.CallIsSound | src/covenant_radar/ai/client.py:300-491 | when names fit and the writer works: at most two attempts, each reservation settled exactly once, one record per attempt, cassette try or refusal, at most three, and recorded costs equal to what was added to the ledger |
| CallConservation.ReturnedOnlyAfterRecorded | src/covenant_radar/ai/client.py:300-588 | with no assumption at all, a result is returned only after its own record was written, last and with the same cost |
| CallConservation.UnfitNamesLeaveNoRecord | src/covenant_radar/ai/client.py:1112-1118 | a stage, provider or prompt version that does not fit its column leaves no record, not even of a refusal |
| CallConservation.LongModelLosesRecord | src/covenant_radar/ai/client.py:468-484 | whenever the first attempt is granted under a model name longer than its column, it is made and paid for, nothing is recorded, and the call raises |
| CallConservation.RunConservesSpend | src/covenant_radar/ai/client.py:300-491 | over any run of calls the recorded costs add up to the total ever held, every attempt is one settled grant, and the ledger history is the replay of the operations |
| CallConservation.RunKeepsCeilings | src/covenant_radar/ai/client.py:300-491 | so any run of calls keeps the rolling limits and the monthly budget up to overruns |
| CallConservation.LastRecordExplains | src/covenant_radar/ai/client.py:372-491 | unless the call raises that it could not write a record or was given a negative amount, its last record gives the reason for how it ended |
| SpendAccounting.CostAccounted | src/covenant_radar/ai/client.py:300-491 | for any names and any writer, every attempt is settled, and the ledger grows by the recorded costs plus the cost of at most one attempt whose record was lost, in which case the call raises |
| SpendAccounting.AttemptLosesRecordIff | src/covenant_radar/ai/client.py:300-491 | an attempt of a validated call loses its record if and only if it is made and the model name it is recorded under does not fit or its write fails, stated on the call, the answers and the ledger before it |
| SpendAccounting.UnrecordedIsLost | src/covenant_radar/ai/client.py:300-491 | what a call adds to the ledger without a record is exactly the cost of that lost attempt: the price of its response, or the estimate when it failed |
| SpendAccounting.RecordedEqualsHeldIff | src/covenant_radar/ai/client.py:590-649 | recorded cost equals what a call added to the ledger if and only if no attempt of non-zero cost is made whose record is refused, a condition on the inputs alone |
| SpendAccounting.LongModelExample | src/covenant_radar/ai/client.py:300-491 | a failing input: a call with a model name of 51 characters that the provider rejects holds 1 and records nothing |
| SpendAccounting.RunAccounted | src/covenant_radar/ai/client.py:300-491 | over any run, under any names and any writer, the cost ever held is the recorded cost plus that of the lost attempts |
| SpendAccounting.RunRecordedEqualsHeldIff | src/covenant_radar/ai/client.py:300-491 | so the records of a run add up to the ledger if and only if no call of it loses an attempt of non-zero cost |
| CallCosts.AttemptsPriced | src/covenant_radar/ai/client.py:725-777 | every attempt of a call reserves the configured estimate, or length and token limit at the prices per thousand, and is settled at the counted tokens at the known prices, or at its estimate when no price or no count is known or it failed; its record and the result say so |
| CallCosts.ThreeForTwoThousand | src/covenant_radar/ai/client.py:771-776 | an example: a thousand tokens at 1 and a thousand at 2 cost 3, whatever was reserved |
| CallCosts.RecordsBelong | src/covenant_radar/ai/client.py:590-649 | every record of a call carries its stage and prompt version, and its provider, or its cassette at no cost |
| CallCosts.CassetteRecordSays | src/covenant_radar/ai/client.py:534-588 | the cassette's record: its own name, no cost, the retry count, the answering model and how it went |
| CallOutcomes.CallEnds | src/covenant_radar/ai/client.py:355-491 | no attempt when the reservation is refused, two if and only if the first was recorded, unreachable other than by a missing recording, and the second is granted; the call ends as its last attempt did, or with the cassette's answer when that was unreachable |
| CallOutcomes.RefusedEnds | src/covenant_radar/ai/client.py:309-353 | a refused request makes no attempt and raises its refusal, recorded, or that it could not be recorded |
| CallOutcomes.NegativeEstimateEnds | src/covenant_radar/ai/client.py:725-731 | a negative estimate ends the call before anything is reserved |
| Base64Url.DecodeEncode | src/covenant_radar/api/pagination.py:273-284 | unpadded base64url decoding undoes encoding for every byte length modulo three (section 5 of RFC 4648) |
| Base64Url.KnownEncodings | src/covenant_radar/api/pagination.py:273-284 | test vectors of section 10 of RFC 4648 and the two characters of its section 5 |
| Base64Url.EncodeLength | src/covenant_radar/api/pagination.py:273-284 | the unpadded length is four characters for three bytes, rounded up |
| CursorToken.CursorRoundTrip | src/covenant_radar/api/pagination.py:84-130 | a cursor survives its signed token if and only if its escaped primary takes at most 203 characters, which is when the token stays within 512 |
| CursorToken.ControlCursorRefused | src/covenant_radar/api/pagination.py:84-130 | a failing input: a valid cursor of 64 control characters escapes to 384, and its own token is refused |
| CursorAuthenticity.DecodeIff | src/covenant_radar/api/pagination.py:97-130 | a token decodes to a cursor if and only if it is two dot-free base64url parts within 512 characters, the second the keyed digest of the first, and the first a payload of exactly the four members that says the cursor |
| CursorAuthenticity.OnlySignedIsRead | src/covenant_radar/api/pagination.py:105-112 | nothing is said about a token's content unless its second part is the keyed digest of its first |
| CursorAuthenticity.NotAuthenticIff | src/covenant_radar/api/pagination.py:111-112 | a token is called not authentic if and only if it is well formed and its second part is not the keyed digest of its first |
| CursorAuthenticity.TamperedRefused | src/covenant_radar/api/pagination.py:84-112 | any other body under an issued signature is refused, unless it exhibits a collision of the keyed digest |
| CursorAuthenticity.ForgedRefused | src/covenant_radar/api/pagination.py:84-112 | any other signature on an issued body is refused |
| CursorToken.SerializedRoundTrip | src/covenant_radar/api/pagination.py:139-149 | every serialised date, datetime or integer within the 64-character limit round-trips, inside 512 characters |
| CursorToken.SerializedLayout | src/covenant_radar/api/pagination.py:139-149 | dates and datetimes are written in ISO 8601, field by field |
| KeysetPaging.PaginateIsPageAt | src/covenant_radar/api/pagination.py:160-225 | a page asked for by token is the page after the position the token was made from, and carries the token of its own last row exactly when more rows follow |
| KeysetPaging.FollowIsWalk | src/covenant_radar/api/pagination.py:160-225 | following tokens through any table states never fails and walks the same pages as following positions |
| KeysetPaging.PageFacts | src/covenant_radar/api/pagination.py:194-214 | a page is an ascending run beyond its position; whatever it leaves out comes strictly after its last row |
| KeysetPaging.WalkAscends | src/covenant_radar/api/pagination.py:160-225 | pages of one walk, one after another, ascend strictly, so no key is returned twice |
| KeysetPaging.WalkComplete | src/covenant_radar/api/pagination.py:160-225 | a finished walk has returned every row that was in all the tables it read, ties on the primary column included |
| KeysetPaging.PagingUnderChange | src/covenant_radar/api/pagination.py:160-225 | through arbitrary table states: no error, no row twice, only rows present at their page, and every row present throughout exactly once when the walk ends |
| KeysetPaging.RepeatedIdHasMoved | src/covenant_radar/api/pagination.py:160-225 | an id is returned again only if its row moved forward in the page order between two requests |
| KeysetPaging.MovedRowReturnsTwice | src/covenant_radar/api/pagination.py:160-225 | and then it can be: one id returned first with key 1 and later with key 3 |
| KeysetPaging.PageCountIsCeiling | src/covenant_radar/api/pagination.py:206-225 | the number of pages is max(1, ceil(n / size)) |
| KeysetPaging.FixedTablePaging | src/covenant_radar/api/pagination.py:160-225 | on a fixed table, in both directions, the pages concatenate to the sorted list in max(1, ceil(n / size)) pages |
| CursorAuthenticity.PaginateRefusals | src/covenant_radar/api/pagination.py:183-192 | a request is refused for its page size, as stale if and only if its token authentically carries another filter digest, or with the decoder's own error |
| CursorAuthenticity.OtherFiltersStale | src/covenant_radar/api/pagination.py:183-192 | a token issued for other filters is refused as stale |
| KeysetPaging.LawfulResource | src/covenant_radar/api/pagination.py:139-149 | resources as the paging theorems assume them exist for every page size and direction: integers of up to 63 digits written in decimal |
| Persistence.LongestRun | evaluation/reference_portfolio/signals.py:269-281 | the scan over sorted dates finds the longest run of consecutive adverse days |
| Persistence.GreatestCount | evaluation/reference_portfolio/signals.py:283-288 | windows ending on each date find the greatest number of adverse days in any 30-day window, or fail for a date in the first 29 days of the calendar |
| Persistence.EndingWindowsSuffice | evaluation/reference_portfolio/signals.py:283-288 | windows that end on an adverse day are enough: no other 30-day window holds more |
| Persistence.Summarise | evaluation/reference_portfolio/signals.py:260-298 | for any event order and any duplicates every family's summary equals its declarative meaning, and sustained holds exactly when either limit is met |
| Persistence.SummaryUnique | evaluation/reference_portfolio/signals.py:260-298 | the meaning of a summary determines it |
| ReferenceSignals.UtilisationNearLine | evaluation/reference_portfolio/signals.py:331-336 | whatever the noise, rounded utilisation stays within 0.01 of 58.00 + 0.08 times the day |
| ReferenceSignals.CrossesOnDay338 | evaluation/reference_portfolio/signals.py:331-336 | so it reaches 85.00 exactly from day index 338 on |
| ReferenceSignals.DeterioratingClimbs | evaluation/reference_portfolio/signals.py:329-336 | utilisation and payment delay never fall from one day to the next |
| ReferenceSignals.NoisyAdverseOnSpikes | evaluation/reference_portfolio/signals.py:361-385 | a noisy borrower is adverse in a family exactly on its two spike days |
| ReferenceSignals.StableInBand | evaluation/reference_portfolio/signals.py:387-400 | a stable borrower never leaves its bands and is never adverse |
| ReferenceSignals.RemainderNeverAdverse | evaluation/reference_portfolio/signals.py:402-414 | the templated remainder is never adverse |
| ReferenceSignals.FollowsTrend | evaluation/reference_portfolio/signals.py:322-357 | every deteriorating family lies on its stated trend without noise and never farther off than its stated spread |
| ReferenceSignals.FillsQuietRange | evaluation/reference_portfolio/signals.py:359-414 | every other profile goes, off its spike days, from one stated end of its range to the other as the fraction grows |
| ReferenceStream.Stream.PositionDecodes | evaluation/reference_portfolio/signals.py:467-505 | index arithmetic inverts: the event at a position is that borrower, day and family |
| ReferenceStream.Stream.IndexIsPosition | evaluation/reference_portfolio/signals.py:467-505 | every index is the position of what it decodes to, so each event has exactly one index |
| ReferenceStream.Stream.FamilyEvents | evaluation/reference_portfolio/signals.py:527-546 | one family's events of a borrower are its days in order |
| ReferenceStream.Stream.AtSays | evaluation/reference_portfolio/signals.py:467-505 | event by event: number, borrower, facility, day, family, value, verdict and digest at each index |
| ReferenceStream.GenerateSignals | evaluation/reference_portfolio/signals.py:557-589 | a stream is made exactly for distinct borrowers, full cohort and facility coverage and 1 to 739858 days, starting that many days before the end date |
| ReferenceLabels.FindFirstCrossing | evaluation/reference_portfolio/labels.py:136-147 | the loop returns the crossing specified by CrossingMeaning |
| ReferenceLabels.CrossingMeaning | evaluation/reference_portfolio/labels.py:136-147 | in any event order the crossing is the earliest event at or above the threshold, the first of equals, and absent exactly when there is none |
| ReferenceLabels.DeriveLabels | evaluation/reference_portfolio/labels.py:150-190 | one label per deteriorating borrower from its first crossing, or the first borrower's failure |
| ReferenceLabels.LabelsSorted | evaluation/reference_portfolio/labels.py:188-189 | labels come out by breach date, reference and id, and are a permutation of the derived rows |
| ReferenceLabels.VerifyLabels | evaluation/reference_portfolio/labels.py:199-221 | labels pass exactly when deriving them again succeeds, each derived label is the last one given for its borrower, and no other borrower is labelled |
| ReferenceLabels.ByBorrowerAgrees | evaluation/reference_portfolio/labels.py:199-221 | comparing labels by borrower is comparing them row by row |
| ReferenceLabels.UtilisationEvents | evaluation/reference_portfolio/labels.py:136-147 | a deteriorating borrower's crossing is its event on day index 338 whatever the noise, and exists exactly with more than 338 days |
| ReferenceCohorts.DefaultSizeFits | evaluation/reference_portfolio/cohorts.py:218-233 | without an explicit size three borrowers are necessary and sufficient |
| ReferenceCohorts.CohortBlocks | evaluation/reference_portfolio/cohorts.py:247-251 | the authored cohorts are three consecutive blocks of the authored size, then the remainder |
| ReferenceCohorts.AssignCohorts | evaluation/reference_portfolio/cohorts.py:236-261 | assignment succeeds exactly for a valid size and no blank reference, and assigns every borrower in order |
| ReferenceCohorts.ValidateCohorts | evaluation/reference_portfolio/cohorts.py:377-390 | for every data set, whether or not its parts match: the validator passes exactly when assignments and stream cover the same borrowers, all authored cohorts exist, every authored assignment names a borrower that behaves as promised, and the labels agree; it reports incompleteness exactly when assignments or cohorts do not cover the portfolio |
| ReferenceDataset.DeterioratingClimb | evaluation/reference_portfolio/cohorts.py:314-352 | both trajectories of a deteriorating borrower pass the climbing check exactly from nine days on |
| ReferenceDataset.NoisyStaysTransient | evaluation/reference_portfolio/cohorts.py:355-366 | no noisy borrower is ever sustained in any family |
| ReferenceDataset.AllBehave | evaluation/reference_portfolio/cohorts.py:314-374 | with nine days or more every borrower of every cohort passes its check, for every seed |
| ReferenceDataset.DerivedOnStream | evaluation/reference_portfolio/labels.py:150-221 | labels derived with the portfolio's references and with none are the same, and exist exactly with more than 338 days |
| ReferenceDataset.LabelCount | evaluation/reference_portfolio/cohorts.py:393-419 | there are exactly as many labels as borrowers in the first block |
| ReferenceDataset.LabelsExact | evaluation/reference_portfolio/labels.py:150-190 | on a generated stream every label names a deteriorating borrower and its reference and is dated on day index 338, every deteriorating borrower has one, and none has two |
| ReferenceDataset.GenerateReferenceCohorts | evaluation/reference_portfolio/cohorts.py:393-419 | for every seed, generation succeeds if and only if the portfolio is usable and 339 <= signal_days <= 739858, and then the labels are the day-338 events of the deteriorating borrowers |
| UuidV7.PackedIsLayout | src/covenant_radar/core/ids.py:51-57 | shifting and or-ing puts the fields side by side: none spills into another |
| UuidV7.FieldsReadBack | src/covenant_radar/core/ids.py:51-57 | timestamp, sequence and random bits read back, and version and variant are always 7 and 2 (section 5.7 of RFC 9562) |
| UuidV7.FitsWhileTimestampFits | src/covenant_radar/core/ids.py:51-57 | the value fits 128 bits if and only if the timestamp fits 48 |
| UuidV7.IdGenerator.NewId | src/covenant_radar/core/ids.py:29-57 | one call advances the state and returns its packed value, or fails exactly when the timestamp has left 48 bits |
| UuidV7.StepAdvances | src/covenant_radar/core/ids.py:37-47 | the state moves strictly forward and never behind the clock, for repeated, backward and forward readings and across sequence overflow |
| UuidV7.NextValue | src/covenant_radar/core/ids.py:37-57 | what one id says about the next: a clock that moved gives its millisecond and a drawn sequence, otherwise the sequence goes up by one and only past 4095 the timestamp, by one, with a drawn sequence |
| UuidV7.CountsWithinMillisecond | src/covenant_radar/core/ids.py:37-47 | while the clock stands still the sequence counts the calls and the timestamp stays |
| UuidV7.StrictlyIncreasing | src/covenant_radar/core/ids.py:29-57 | over any run, from any state, for any clock and any draws, the values strictly increase (section 6.2 of RFC 9562) |
| UuidV7.DriftBounded | src/covenant_radar/core/ids.py:37-47 | the timestamp runs ahead of the latest clock reading by at most one millisecond per call |
| Statements.PeriodLines | evaluation/reference_portfolio/financials.py:100-193 | every line equals its drawn share after rounding, current assets included, so the repair of other current assets is never made; total liabilities are repaired exactly when they do not exceed debt; the statement balances; and it is said exactly when total liabilities hold the listed ones |
| Statements.OtherAssetsPositive | evaluation/reference_portfolio/financials.py:131-137 | cash, inventory and receivables never use up the current assets, for every draw |
| Statements.StatementBalances | evaluation/reference_portfolio/financials.py:100-193 | total assets equal liabilities plus net worth, liabilities strictly exceed debt, EBIT and other current assets are positive, and current assets exceed current liabilities |
| Statements.LiabilitiesCovered | evaluation/reference_portfolio/financials.py:148-160 | for every draw, total liabilities hold current liabilities and long-term debt if and only if the drawn liabilities are repaired or already hold them |
| Statements.LiabilitiesCanBeExceeded | evaluation/reference_portfolio/financials.py:148-160 | a failing input: total liabilities of 100.00, of which 148.44 are current or long-term debt |
| Statements.QuartersTile | evaluation/reference_portfolio/financials.py:80-97 | each quarter starts the day after the one before it ends, leap years included |
| Statements.QuarterDates | evaluation/reference_portfolio/financials.py:80-97 | fiscal year y runs April to March: the dates of each of its quarters, and labels of its last two digits |
| Statements.QuarterNames | evaluation/reference_portfolio/financials.py:80-97 | two quarters share a label if and only if they lie a multiple of 400 quarters apart |

## Left out

- CallConservation.CallIsSound: assumes names that fit their columns and a working writer, because without them the code loses records; SpendAccounting.CostAccounted and RunRecordedEqualsHeldIff cover every other input.
- BundleTheorems.ComputedBundleVerifies: rows are given as JSON mappings, because rows given as objects pass through `json_safe`, which turns values the digest refuses (UUIDs, dates) into text that it accepts; for what the recorder stores RecordedBundles.RecordedBundleVerifies shows that nothing is lost.
- KeysetPaging.PagingUnderChange: primary values are ranks, integers of up to 63 digits, with a text form that fits a cursor; SQL text, sessions and the database's collation are not part of this model.
- EvidenceBundle.BuildBundle: on an error the half-written ZIP is dropped with the exception, so the model returns the error alone.
- BundleVerifier.VerifyArchive: reading a damaged ZIP container (CRC, compression, encryption flags) is not part of this model; a sequence spelled with the non-standard literal `Infinity` is read as malformed JSON, where the code lets the overflow escape.
- Python strings with lone surrogates: a payload holding one is modelled as refused, and a JSON `\u` escape of one as malformed text.
- JSON's non-standard `NaN` and `Infinity`, recursion limits and the digit limit of `int`: read as malformed or unlimited.
- Order of keys in a decoded JSON object: the model visits them in sorted order, which can only change which of several payload errors is reported.
- Fields outside the digest (row ids, threshold snapshot ids, request ids, creation times) are covered by no chain theorem, as the code hashes none of them.
- SHA-256, HMAC, NFC, NFKD, case folding, timestamp and UUID parsing, `repr` of floats, `str` of collections: arbitrary functions with stated laws.
- CursorAuthenticity.DecodeIff: a body in UTF-16 or UTF-32 or with a byte order mark, which `json.loads` would read and no issued token has, is malformed here.
- Locks and threads: one caller at a time. The worker thread and the timeout of a provider call are one oracle answer.
- Request and prompt validation of the model client (masking, versions, stages): one optional refusal with its reason; alerts, latency and currency text.
- Conversion of local times to UTC, and the rounding of the 28-digit decimal context, which no modelled value reaches.
- WeasyPrint, the HTML rendering, document-store back ends, reading bundles from paths and streams.
- The ratio library and the statement chart that `generate_financial_periods` calls, and the tables of `generator.py`.
- Content hashes of the generated tables and of the signal stream.
- Filter digests, page-size clamping and cursor secrets from the environment: finite cases without state.
- Everything outside the parts above: web, API and CLI plumbing, the covenant engine, forecasting, triage, case handling, ingestion, masking.
