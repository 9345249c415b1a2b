# The s2c codec and delta engine, modelled and proved

This project models the binary snapshot codec, the delta protocol, the structural index and
the streaming encoder of `crates/sysmlv2-cbor`, and three smaller stateful cores: the
replace-and-rollback protocol behind `refactor`, the ZIP writer and reader of the project
archive, and the memoised supertype search of the lint pass.

A document is a flat array of elements; an element is an identity, a metaclass name and a map
from property to value. The generated field tables are a parameter: metaclasses of distinct
names with at most 64 fields of distinct names each, enum defaults inside their vocabulary.
An identity is a 128-bit number (a UUID's bytes, big-endian) with one canonical spelling, text
is bytes, and a float is its bit pattern. The payload is a sequence of CBOR tokens (heads of
section 3 of RFC 8949, shortest as in section 4.2.1); `Cbor.dfy` proves that tokens and bytes
determine each other, so what is proved on tokens holds on bytes. Digests are an arbitrary
function of the bytes hashed. Deflate, inflate, CRC-32 and the ownership-path derivation are
parameters too.

How the files build on each other:

- `Wrappers`, `Seqs`, `Cbor`, `Model`: results, sequences, tokens and bytes, documents and tables.
- `Order`, `Preorder`, `CanonDoc`, `Owners`: the ownership preorder as a graph function, as the
  stack loop, and over documents; first-claimant owner derivation.
- `Values`, `Records`, `Sections`, `Snapshot`, `CodecLoops`, `Encodable`, `WireFormat`: the
  snapshot codec, its round trip, its loops, what it accepts, and its bytes.
- `Patch`, `Acts`, `Delta`, `Apply`, `DeltaRecords`, `DeltaRoundTrip`, `DeltaTheorems`,
  `DeltaLoops`, `Diffable`: planning, encoding and applying a change set, and apply undoing diff.
- `Portable`, `Lenient`, `Runs`, `Accepted`, `Delimits`: portable deltas over divergent bases, and
  what any payload amounts to, must be and ends with, whoever wrote it.
- `Index`, `IndexLoops`, `IndexBytes`: the structural index, its transition, and its byte form.
- `TransitionCommutes`, `OpenLists`, `TransitionRuns`, `TransitionTheorem`, `EncodedLines`,
  `OpenPayloads`, `ResolvedDeltas`: when the transition commutes with applying, payloads on which
  it does not, and what an encoded delta resolves to.
- `Flat`, `Transcode`, `Stream`, `StreamWrite`: the one-pass encoder and the streamed digest.
- `Normalize`, `NormalizeLoops`, `SortOrder`: the two normal spellings.
- `Rebase`, `RebasePairs`, `RebaseLoops`, `RebaseConfluence`, `RebaseOrder`: moving a target's
  identities onto a base, when the order of the worklist does not matter, and where it does.
- `Items`, `Describe`: inspecting a delta without its base.
- `Persist`, `Governing`, `GoverningRuns`, `Zip`: the three smaller cores.

Three things a reader of the source might expect do not hold, and the code is modelled as it
is. The pattern search does not always answer with the nearest annotation
(`Governing.MemoNotNearest`); `GoverningRuns.AlwaysNearestIff` says on which graphs it always
does, and `Governing.NearestIff` when one query does. The index transition
and the applier part ways on some payloads: on ownership lists that name elements outside the
payload, where it may refuse (`OpenPayloads.SymbolicParts`) or answer with another index
(`OpenPayloads.OutsiderParts`), and on payloads that create one identity twice
(`OpenPayloads.TwiceParts`); `TransitionTheorem.TransitionCommutesWithApply` and
`EncodedLines.EncodedTransitions` say exactly when they agree. And a rebase can capture an
external reference that happens to be a base identity (`RebaseLoops.ExternalCaptured`);
`RebaseConfluence.CaptureIff` says exactly when, where no element is owned twice, and there the
order of the hash maps decides nothing (`RebaseConfluence.OutcomesAgree`). Where two owners
share a child that order can decide (`RebaseOrder.CaptureFollowsOrder`).

`dafny verify dfyconfig.toml` checks the whole project.

## Model

| member | source | states |
|---|---|---|
| `DeltaTheorems.ApplyUndoesDiff` | crates/sysmlv2-cbor/src/delta.rs:1449-1947 | applying an encoded delta, strict or portable, to the state it was planned from (in any arrangement) returns the target's elements in applied order with every implied backpointer restored, whichever of whole record or patch each update chose, and a report of a matched base with no no-op deletes, upserts or replaced creates |
| `DeltaTheorems.ApplyUndoesDiffBytes` | crates/sysmlv2-cbor/src/delta.rs:1403-1447 | the same on the bytes, magic and tokens included, with the same report |
| `ResolvedDeltas.EncodedResolves` | crates/sysmlv2-cbor/src/index.rs:348-558 | every encoded delta, strict or portable, resolves, and says what went into it: the digest of the canonical base as its base, the digest of the target in applied order as its result, the claims by key, the units by result position, and the planned records, each under its base position or its identity, with its payload and the backpointers its element lacks |
| `Diffable.DiffSucceeds` | crates/sysmlv2-cbor/src/delta.rs:1050-1379 | a diff is encoded exactly when both states are encodable and the claims and units are in order: the self-checks inside never fail |
| `DeltaRoundTrip.AppliedIsResult` | crates/sysmlv2-cbor/src/delta.rs:1803-1916 | what the applier assembles, canonicalises and fills from the records of a plan is the target in applied order, value for value |
| `DeltaRoundTrip.ReplayedOrder` | crates/sysmlv2-cbor/src/delta.rs:213-232 | listing the surviving base first and the created elements in result order canonicalises to the result's own order, although backpointers have not been restored yet |
| `DeltaRoundTrip.FillOneRestores` | crates/sysmlv2-cbor/src/delta.rs:1873-1916 | re-deriving what a record left out gives back its element; an element no record shipped whole is left as it is |
| `DeltaRoundTrip.AssembledShown` | crates/sysmlv2-cbor/src/delta.rs:1803-1810 | the assembled document holds exactly the result's identities, each with what its record carried |
| `DeltaTheorems.BodyActs` | crates/sysmlv2-cbor/src/delta.rs:1653-1765 | the written record list is read back as the acts of the plan, over the base in strict mode and over any document in portable mode |
| `DeltaTheorems.MappedUnits` | crates/sysmlv2-cbor/src/delta.rs:1086-1117 | the unit section has one entry per unit passed, naming the same element by its result position, ascending |
| `DeltaTheorems.UnitsRefused` | crates/sysmlv2-cbor/src/delta.rs:1092-1117 | with roots and paths in order, units are refused exactly for a repeated root |
| `DeltaTheorems.SortMembers` | crates/sysmlv2-cbor/src/delta.rs:1209-1213 | sorting claims keeps exactly the pairs passed |
| `DeltaRecords.ReadActInverts` | crates/sysmlv2-cbor/src/delta.rs:1653-1762 | one record is read as the act it was planned as |
| `DeltaRecords.TouchedCovers` | crates/sysmlv2-cbor/src/delta.rs:1131-1145 | a base position no record names already holds the result's element |
| `DeltaRecords.PlanShortest` | crates/sysmlv2-cbor/src/delta.rs:1225-1268 | an update ships as a patch exactly where the delta is strict and the patch takes strictly fewer bytes than the whole record; on a tie, without a patch, and always when portable it ships whole |
| `DeltaRecords.PlanOrdered` | crates/sysmlv2-cbor/src/delta.rs:1131-1154 | the records of a plan stand by ascending base position, then what is created, in the order of the result |
| `Delta.AppliedOrderSame` | crates/sysmlv2-cbor/src/delta.rs:213-232 | the applied order rearranges the target and changes no element |
| `Lenient.LenientMerges` | crates/sysmlv2-cbor/src/delta.rs:1381-1447 | a portable delta applied leniently to any encodable document of another digest is accepted and leaves exactly the held elements it did not delete, overridden by what it shipped, up to re-derived backpointers; its three counters are the sizes of deletes outside, updates outside and creates inside the held document |
| `Lenient.ApplyIsCanonical` | crates/sysmlv2-cbor/src/delta.rs:1449-1947 | any payload the applier accepts, over any base, leaves distinct identities in canonical order; it reports a match exactly where the digest of the canonical base is the declared one, and then the result has the declared digest; a strict apply only ever accepts a match |
| `Lenient.AppliedIsCanonical` | crates/sysmlv2-cbor/src/delta.rs:1803-1916 | the same for any bookkeeping a record run can reach |
| `Portable.ActsAreDiff` | crates/sysmlv2-cbor/src/delta.rs:1131-1154 | the records of an encoded delta are its diff: deletes, updates and creates are the three set differences |
| `Portable.PortableRuns` | crates/sysmlv2-cbor/src/delta.rs:1653-1765 | a portable record run over any document never fails, and its counters count what they say |
| `Portable.PortableIds` | crates/sysmlv2-cbor/src/delta.rs:1803-1810 | the identities left are those held and not deleted, and all that was shipped |
| `Portable.FilledOverrides` | crates/sysmlv2-cbor/src/delta.rs:1874-1916 | a shipped element arrives as sent, except that a backpointer which spelled its derivation spells the new derivation |
| `Acts.RunMeans` | crates/sysmlv2-cbor/src/delta.rs:1628-1762 | any run of admitted records with distinct identities succeeds, and its maps and lists are read off the records alone |
| `Acts.AssembleMeans` | crates/sysmlv2-cbor/src/delta.rs:1803-1810 | the assembled payload is the base without the deletes, in base order, then the new identities in record order, each with what was shipped or held |
| `Runs.AnyRun` | crates/sysmlv2-cbor/src/delta.rs:1628-1762 | any run, identities repeated or not: it goes through exactly where each record is taken after those before it (strict ones touch what is held and create what is not, and no held identity is deleted or updated once it was touched), and then what is dropped, what overrides which position, what is appended in which order and the three counters are what the records say |
| `Runs.AnyRunLeaves` | crates/sysmlv2-cbor/src/delta.rs:1803-1810 | the document any run leaves: the base without what was dropped, in base order, then the new identities in the order of their first shipping, each as last shipped, or as the base held it |
| `Runs.BitsOfLast` | crates/sysmlv2-cbor/src/delta.rs:1767-1791 | an identity shipped several times takes the exception bits of its last record |
| `Accepted.ReportSays` | crates/sysmlv2-cbor/src/delta.rs:1449-1947 | for every accepted delta, strict or portable: each record was taken after those before it, the three counters are the sizes of the sets the records name, and the identities of the result are those held and not dropped and those shipped anew |
| `Accepted.RecordsTaken` | crates/sysmlv2-cbor/src/delta.rs:1540-1765 | an accepted delta declares the size of its base, or none when portable, holds as many records as announced, and creates exactly the identities of its created table, in its order |
| `Accepted.ExceptionsTaken` | crates/sysmlv2-cbor/src/delta.rs:1767-1791 | the owner exceptions of an accepted delta name only records that shipped an element whole |
| `Accepted.UnitsReported` | crates/sysmlv2-cbor/src/delta.rs:1918-1947 | units are reported only under ascending positions of the result, each with a path |
| `Apply.AppliedTaken` | crates/sysmlv2-cbor/src/delta.rs:1455-1515 | what is applied has this layout and these tables, the delta flag, no form or identity the applier cannot read, units only when strict, and is portable when applied leniently |
| `Apply.HeaderIff` | crates/sysmlv2-cbor/src/delta.rs:1455-1590 | a header is read exactly where its word and section count are such and its digests and claims are in order |
| `Apply.ShippedByName` | crates/sysmlv2-cbor/src/delta.rs:1874-1916 | on the result each shipped element gets the backpointers no exception bars: `owningRelationship` a reference to the first element whose `ownedRelatedElement` names it, `owningRelatedElement` one to the first whose `ownedRelationship` does, or null; every other element stays as it is |
| `Delimits.DeltaEnds` | crates/sysmlv2-cbor/src/delta.rs:1449-1947 | whatever follows an accepted delta makes it refused |
| `Delimits.DeltaFileEnds` | crates/sysmlv2-cbor/src/delta.rs:1403-1447 | no accepted delta file begins another, and each begins with the file magic |
| `Apply.RunSound` | crates/sysmlv2-cbor/src/delta.rs:1628-1762 | every run keeps the applier's bookkeeping sound: replacements keep their identity, what is appended is new and there once |
| `Apply.AssembledDistinct` | crates/sysmlv2-cbor/src/delta.rs:1803-1810 | any run over distinct identities leaves distinct identities |
| `Apply.ApplyRecords` | crates/sysmlv2-cbor/src/delta.rs:1653-1762 | the record loop, reading and applying each record in turn, is reading them all and then running them |
| `DeltaLoops.WriteTouched` | crates/sysmlv2-cbor/src/delta.rs:1131-1270 | the loop that plans and writes each touched position in turn returns the plan of the diff and its bytes, each update in the form that takes fewer bytes, and refuses exactly where either fails |
| `DeltaLoops.AssembleResult` | crates/sysmlv2-cbor/src/delta.rs:1803-1810 | the assembly loop builds survivors with replacements in place, then what was appended |
| `DeltaLoops.ShippedBits` | crates/sysmlv2-cbor/src/delta.rs:1767-1791 | a later record of one identity wins the exception bits |
| `DeltaLoops.RederiveShipped` | crates/sysmlv2-cbor/src/delta.rs:1874-1916 | the loop over the applied document fills exactly the shipped elements, from first claimants |
| `TransitionTheorem.TransitionCommutesWithApply` | crates/sysmlv2-cbor/src/index.rs:629-790 | every strict payload the applier takes, over any base, resolves through the base's index, and its transition is the index of the applied state if and only if the records line up: no identity is created twice, and each ownership list that survives unshipped comes out alike (untouched, it names nothing the payload creates; spliced, the splice lands on the same held entries). Identities created once, it is refused exactly where a splice runs past the entries the index holds or the result is too large. Over a base whose lists name only its own elements the lists always line up |
| `EncodedLines.EncodedTransitions` | crates/sysmlv2-cbor/src/index.rs:629-790 | for every strict delta the encoder writes: transitioning the base's index gives the index of the target in applied order if and only if the two states line up, a condition on the two states and the encoder's choice of patches alone; it is refused exactly where a chosen splice runs past the held entries or the result is too large; a base whose lists name only its own elements always lines up |
| `EncodedLines.RecordResolves` | crates/sysmlv2-cbor/src/index.rs:365-558 | a record the encoder wrote resolves through the base's index to what it was planned as |
| `EncodedLines.PlannedPayloads` | crates/sysmlv2-cbor/src/delta.rs:1131-1270 | what the resolved records carry for each base position is read off the two states: nothing where unchanged, a delete, the whole element, or the planned operations by name |
| `EncodedLines.UnchangedNamer` | crates/sysmlv2-cbor/src/index.rs:629-790 | an unchanged element that names what only the result holds puts the two states out of line |
| `OpenPayloads.OutsiderParts` | crates/sysmlv2-cbor/src/index.rs:629-790 | for every hash: a base and target whose encoded strict delta the applier takes and the transition answers with another index than the applied state's |
| `OpenPayloads.SymbolicParts` | crates/sysmlv2-cbor/src/index.rs:690-715 | for every hash: a base with a symbolic entry before a reference, and the encoder's own patch removing the reference, which the applier takes and the transition refuses |
| `OpenPayloads.TwiceParts` | crates/sysmlv2-cbor/src/index.rs:716-724 | for every hash: a strict payload the applier takes that creates one identity twice, and whose transition is not the applied state's index |
| `TransitionRuns.AppendAllDistinct` | crates/sysmlv2-cbor/src/delta.rs:716-732 | appended elements are all kept exactly when no identity is created twice |
| `TransitionRuns.ReadActsSay` | crates/sysmlv2-cbor/src/index.rs:365-558 | the resolver reads every record list the applier reads, record by record alike |
| `TransitionTheorem.BodyResolves` | crates/sysmlv2-cbor/src/index.rs:365-558 | an accepted strict body resolves through the base's index to the header's digests, in their places, the claims, the units the applier reports, and records that say what its acts say, with the exception bits listed for each |
| `TransitionTheorem.ResolvedSays` | crates/sysmlv2-cbor/src/index.rs:340-558 | for every strict payload the applier takes, the resolved delta carries the digest of the canonical base as its base, the digest of what applying made as its result, and the units the applier reports |
| `Index.ResolvedTaken` | crates/sysmlv2-cbor/src/index.rs:365-420 | a header is resolved exactly where it is of this layout and these tables, strict with an index or portable without, in no other form, and its digests and claims are in order |
| `Accepted.ResolvedStands` | crates/sysmlv2-cbor/src/index.rs:407-550 | whatever resolves, strict or portable: it declares the index's size, or none, holds as many records as announced, each under its target's identity, a patch only of a base element and content for every create, creates exactly the identities of its created table in order, with exception bits only on content and units under ascending positions |
| `Delimits.ResolvedEnds` | crates/sysmlv2-cbor/src/index.rs:340-550 | whatever follows a delta that resolves makes it refused |
| `ResolvedDeltas.PortableUnmoved` | crates/sysmlv2-cbor/src/index.rs:629-636 | what resolves without an index moves no index |
| `Index.IndexByName` | crates/sysmlv2-cbor/src/index.rs:61-100 | the index of a document: in canonical order its identities, its metaclasses, and the positions of its own elements named by `ownedRelatedElement` and by `ownedRelationship`, each list in its order |
| `Index.IndexedIff` | crates/sysmlv2-cbor/src/index.rs:61-100 | a document is indexed exactly if every metaclass is known and 32-bit positions reach all its elements |
| `TransitionRuns.AdvancedIsApplied` | crates/sysmlv2-cbor/src/index.rs:682-724 | on records that say what the applier's acts say, the moved nodes index the applied state exactly when the records line up, and a record is refused exactly where a splice does not fit |
| `TransitionCommutes.SettleIsStructure` | crates/sysmlv2-cbor/src/index.rs:733-789 | walking and renumbering nodes indexes the canonical form of the document they reflect |
| `OpenLists.LinedMeans` | crates/sysmlv2-cbor/src/index.rs:690-715 | one list lines up exactly when structure takes the operation and agrees with content on the entries the result keeps |
| `OpenLists.NodeAgrees` | crates/sysmlv2-cbor/src/index.rs:690-715 | a patched element lines up exactly when its patched node agrees with its patched content on both lists |
| `OpenLists.AlignedSplice` | crates/sysmlv2-cbor/src/index.rs:690-715 | a splice with only held entries ahead of its end, in a list whose tail names no created identity, lines up |
| `OpenLists.UnheldAheadMayAlign` | crates/sysmlv2-cbor/src/index.rs:690-715 | an unheld entry ahead of a splice need not put it out of line, so that condition is not the exact one |
| `OpenLists.IndexAlike` | crates/sysmlv2-cbor/src/index.rs:733-789 | two documents of the same elements have one index exactly when their lists hold the same in-payload entries |
| `TransitionCommutes.ReflectedWalk` | crates/sysmlv2-cbor/src/index.rs:743-773 | the transition's walk is the canonical order of the document its nodes reflect |
| `IndexLoops.RunTransition` | crates/sysmlv2-cbor/src/index.rs:629-790 | the imperative transition computes that transition, refusals included |
| `IndexLoops.RunRecords` | crates/sysmlv2-cbor/src/index.rs:682-724 | the record loop over nodes, deletions and appended nodes |
| `IndexLoops.SettleNodes` | crates/sysmlv2-cbor/src/index.rs:733-789 | the flag arrays, the stack walk and the renumbering |
| `IndexLoops.PatchInPlace` | crates/sysmlv2-cbor/src/index.rs:690-715 | patch operations edit one node's two ownership lists and nothing else |
| `IndexBytes.IndexRoundTrip` | crates/sysmlv2-cbor/src/index.rs:131-226 | a base index with in-range type codes and adjacency survives its byte form |
| `IndexBytes.AcceptedReseals` | crates/sysmlv2-cbor/src/index.rs:155-226 | any artifact the reader accepts, padded varints included, re-seals to the same index |
| `IndexBytes.AcceptedInRange` | crates/sysmlv2-cbor/src/index.rs:155-226 | whatever the reader accepts is in range and bounded by the artifact's size |
| `IndexBytes.SealTaken` | crates/sysmlv2-cbor/src/index.rs:155-171 | an accepted artifact opens with the magic and version and closes with the seal of everything before it |
| `IndexBytes.AlteredRefused` | crates/sysmlv2-cbor/src/index.rs:168-171 | altered content under an accepted artifact's seal is refused unless it has the same seal |
| `IndexBytes.ContentsEnd` | crates/sysmlv2-cbor/src/index.rs:172-226 | what an artifact seals is one index and nothing after it |
| `IndexBytes.VarintInverts` | crates/sysmlv2-cbor/src/index.rs:238-270 | reading a varint inverts writing it for every 64-bit value, whatever follows |
| `IndexBytes.PaddedVarint` | crates/sysmlv2-cbor/src/index.rs:256-270 | the reader takes spellings the writer never makes |
| `IndexBytes.Uvarint` | crates/sysmlv2-cbor/src/index.rs:238-248 | the writer's loop emits that varint |
| `IndexBytes.VarReader.Next` | crates/sysmlv2-cbor/src/index.rs:252-270 | one read advances past one varint, or refuses it |
| `Snapshot.RoundTrip` | crates/sysmlv2-cbor/src/decode.rs:334-558 | decoding what the encoder wrote returns the same document with the same key sets, absent and spelled defaults told apart and every backpointer restored or left absent, and the same units |
| `Snapshot.RoundTripBytes` | crates/sysmlv2-cbor/src/encode.rs:605-655 | the same on bytes |
| `WireFormat.WireFormatPinned` | crates/sysmlv2-cbor/tests/determinism.rs:33-93 | the two-element document of the pinned wire-format test encodes to exactly its bytes: magic, header word, external and identity tables, type codes, presence words, entries, and the owner exception |
| `WireFormat.ArtifactPinned` | crates/sysmlv2-cbor/src/index.rs:131-153 | the index of such a document, as an artifact, is exactly these bytes: magic, version, count, identities, type codes, owned elements, owned relationships, seal |
| `WireFormat.StandardExamples` | crates/sysmlv2-cbor/src/cbor.rs:58-124 | each kind of token has the bytes of the examples in appendix A of RFC 8949, arguments of every width among them |
| `WireFormat.EveryDigit` | crates/sysmlv2-cbor/src/delta.rs:311-315 | an identity is spelled in lowercase, in groups of 8, 4, 4, 4 and 12 digits |
| `WireFormat.DigestOpens` | crates/sysmlv2-cbor/src/encode.rs:666-698 | what is digested opens with four sections and a header word of scheme 1 and no flag, so owners are spelled |
| `WireFormat.DeltaOpens` | crates/sysmlv2-cbor/src/delta.rs:1271-1340 | a delta opens with seven sections, or eight with units, the delta and implied-owner flags and those of its mode, and the digest of its base before that of its result |
| `Snapshot.RecordLeavesOut` | crates/sysmlv2-cbor/src/encode.rs:516-566 | a record leaves out `owningRelationship` exactly where it spells the first element whose `ownedRelatedElement` names this one, and `owningRelatedElement` exactly where it spells the first whose `ownedRelationship` does, null where there is none |
| `Snapshot.FilledByName` | crates/sysmlv2-cbor/src/decode.rs:489-522 | decoding fills each of the two backpointers, unless spelled, barred by an exception or not in the table, with the first element whose named list holds this one, or null |
| `Snapshot.SnapshotTaken` | crates/sysmlv2-cbor/src/decode.rs:283-370 | a snapshot is decoded exactly where its header is of this layout and these tables, not a delta, portable, full or elided, with the sections its flags announce, and its body reads as announced |
| `Accepted.SnapshotLaidOut` | crates/sysmlv2-cbor/src/decode.rs:334-560 | an accepted snapshot has as many elements as identities, under those identities in order, owner exceptions of elements of it, and units that name elements of it in ascending order |
| `Accepted.RecordTaken` | crates/sysmlv2-cbor/src/decode.rs:179-237 | an accepted record has a known metaclass, no presence bit beyond its fields, as many entries as announced at ascending ordinals no bit marks, and its element has exactly the properties so named, each marked one at its default |
| `Accepted.ValueTaken` | crates/sysmlv2-cbor/src/decode.rs:100-162 | a value is read only from its own kind of token for its own kind of field, and takes exactly its tokens |
| `Delimits.SnapshotEnds` | crates/sysmlv2-cbor/src/decode.rs:540-560 | whatever follows an accepted snapshot makes it refused |
| `Delimits.FileEnds` | crates/sysmlv2-cbor/src/decode.rs:564-640 | no accepted snapshot file begins another, and each begins with the file magic |
| `Snapshot.DigestBytesInjective` | crates/sysmlv2-cbor/src/encode.rs:666-698 | equal digest pre-images come from equal documents |
| `Encodable.EncodesIff` | crates/sysmlv2-cbor/src/encode.rs:605-648 | the encoder accepts exactly documents of distinct identities whose elements have a known metaclass, no key outside its table and only values their fields carry, with ascending in-range units |
| `Encodable.ValueIff` | crates/sysmlv2-cbor/src/encode.rs:401-452 | a value is written exactly when its field's kind can carry it |
| `Snapshot.FillRestores` | crates/sysmlv2-cbor/src/decode.rs:501-522 | what a record leaves out against a derivation, that derivation and the exception bits restore |
| `Snapshot.FillInverts` | crates/sysmlv2-cbor/src/decode.rs:491-522 | filling owners over the decoded records gives the document back |
| `Snapshot.KeptForward` | crates/sysmlv2-cbor/src/encode.rs:552-566 | leaving backpointers out touches no forward list, so both sides derive alike |
| `Records.ReadBodyInverts` | crates/sysmlv2-cbor/src/decode.rs:179-237 | a record is read back as the element it was written from, less the backpointers it left out |
| `Records.AddedIsKept` | crates/sysmlv2-cbor/src/decode.rs:203-235 | entries then defaults, over a table that holds every key, are what the record kept |
| `Values.ReadValueInverts` | crates/sysmlv2-cbor/src/decode.rs:100-162 | every value a field can carry is read back as written, whatever follows |
| `Records.BitOfPack` | crates/sysmlv2-cbor/src/decode.rs:27-47 | presence bit i of the packed word is bit i |
| `Sections.HeaderInverts` | crates/sysmlv2-cbor/src/decode.rs:283-332 | the header word's axes and flags are read back |
| `Sections.IdsInvert` | crates/sysmlv2-cbor/src/decode.rs:50-66 | an identity table is read back, its length within the bytes left |
| `Sections.PairsInvert` | crates/sysmlv2-cbor/src/cbor.rs:273-296 | an ascending map is read back |
| `Sections.RisingUnique` | crates/sysmlv2-cbor/src/encode.rs:297-318 | externals are numbered by one order only: an ascending list is determined by its members |
| `Sections.ExternalsAre` | crates/sysmlv2-cbor/src/encode.rs:265-334 | the externals are exactly the identities the elements' reference fields name and the document does not hold, ascending |
| `Sections.InternerAgrees` | crates/sysmlv2-cbor/src/encode.rs:297-334 | the encoder's index space and the decoder's tables name the same identities |
| `CodecLoops.WriteRecordOf` | crates/sysmlv2-cbor/src/encode.rs:454-511 | the record writer, sorting keys in any order into a bit array and entries, writes that record |
| `CodecLoops.SortKeys` | crates/sysmlv2-cbor/src/encode.rs:460-500 | every key lands in its presence bit, its entry or nowhere, and an unknown key is refused |
| `CodecLoops.Decoder.Body` | crates/sysmlv2-cbor/src/decode.rs:179-237 | the decoder advances over one record and returns its element |
| `CodecLoops.Decoder.Entries` | crates/sysmlv2-cbor/src/decode.rs:203-222 | the entry loop refuses descending ordinals and an entry that also has a presence bit |
| `CodecLoops.Decoder.Value` | crates/sysmlv2-cbor/src/decode.rs:100-162 | one property value: one token by its kind, or a list by its loop |
| `CodecLoops.Decoder.Elements` | crates/sysmlv2-cbor/src/decode.rs:457-460 | one record per identity, in table order |
| `CodecLoops.Decoder.PatchOps` | crates/sysmlv2-cbor/src/delta.rs:967-1048 | each operation is read in place and edited into the element as it is read |
| `CodecLoops.Decoder.Operation` | crates/sysmlv2-cbor/src/delta.rs:967-1048 | the decoder advances over one operation, its operand by its code, or refuses |
| `CodecLoops.RestoreOwners` | crates/sysmlv2-cbor/src/decode.rs:489-522 | the owner loop over the decoded document |
| `Owners.DeriveOwners` | crates/sysmlv2-cbor/src/encode.rs:60-112 | each element's owner per slot is the first element in array order whose `ownedRelatedElement` names it, for `owningRelationship`, and whose `ownedRelationship` names it, for `owningRelatedElement` |
| `Owners.OwnersByName` | crates/sysmlv2-cbor/src/encode.rs:60-112 | the identity derived for each backpointer is that of the first element whose named list holds this one |
| `Owners.DerivedOwnerSame` | crates/sysmlv2-cbor/src/encode.rs:80-112 | derivation reads nothing but identities and forward lists |
| `Model.DefaultRulesAgree` | crates/sysmlv2-cbor/src/encode.rs:213-252 | the two default rules, written apart, are one rule on every field and value |
| `Order.WalkIsPreorder` | crates/sysmlv2-cbor/src/delta.rs:258-292 | on every graph, shared children and cycles included, the stack loop is the recursive preorder |
| `Order.CanonPermutes` | crates/sysmlv2-cbor/src/delta.rs:239-292 | the canonical order lists every node once |
| `Order.CanonIdempotent` | crates/sysmlv2-cbor/src/delta.rs:239-292 | canonical order is a fixed point |
| `Order.CanonDependsOn` | crates/sysmlv2-cbor/src/delta.rs:239-292 | only the relative order of roots, and of what no root reaches, can move it |
| `Order.CanonKeeps` | crates/sysmlv2-cbor/src/delta.rs:239-292 | it keeps the order of roots and of unreached nodes |
| `Order.CanonIsPreorder` | crates/sysmlv2-cbor/src/delta.rs:258-292 | the canonical order is the recursive preorder: from each root in turn, before the next root, everything not yet visited that is reached from it, then in arrangement order what no root reaches |
| `Order.CanonReplays` | crates/sysmlv2-cbor/src/delta.rs:213-232 | an applier's base-first arrangement canonicalises back to the order it came from |
| `Order.CanonRenames` | crates/sysmlv2-cbor/src/delta.rs:239-292 | renaming the nodes renames the order |
| `Order.WalkFollowsOwners` | crates/sysmlv2-cbor/src/delta.rs:258-292 | every visited node is a start or follows an owner |
| `CanonDoc.CanonDocIdempotent` | crates/sysmlv2-cbor/src/delta.rs:161-200 | canonicalising a document twice is canonicalising it once |
| `CanonDoc.CanonDocDependsOn` | crates/sysmlv2-cbor/src/delta.rs:161-200 | two arrangements of one element set that agree on roots and on unreached elements have one canonical array |
| `CanonDoc.CanonDocSame` | crates/sysmlv2-cbor/src/delta.rs:161-200 | canonicalising keeps every element |
| `CanonDoc.CanonicalIsPreorder` | crates/sysmlv2-cbor/src/delta.rs:239-292 | the canonical array lists identities in that preorder, an element's `ownedRelatedElement` targets before its `ownedRelationship` targets, each list in its order, roots being the elements neither list of any element names |
| `CanonDoc.CanonicalOrder` | crates/sysmlv2-cbor/src/delta.rs:239-253 | the position lists and the traversal compute that order, which is the preorder over the two named lists |
| `Preorder.OwnershipPreorder` | crates/sysmlv2-cbor/src/delta.rs:258-292 | the loop over flags, visited and stack terminates with the canonical order, and that is the preorder from each root in turn followed by what no root reaches |
| `Preorder.WalkLoop` | crates/sysmlv2-cbor/src/delta.rs:268-291 | the stack loop is the walk |
| `Preorder.MarkOwned` | crates/sysmlv2-cbor/src/delta.rs:258-268 | the owned flags are exactly the listed positions |
| `StreamWrite.StreamedIsEncoded` | crates/sysmlv2-cbor/src/stream.rs:276-298 | the one-pass streamed encoder accepts and writes exactly what the whole-array encoder does, byte for byte |
| `StreamWrite.StreamedDigest` | crates/sysmlv2-cbor/src/delta.rs:315-391 | the streamed state digest hashes the bytes the whole-array digest hashes |
| `Transcode.RecordTranscodes` | crates/sysmlv2-cbor/src/encode.rs:728-809 | respelling a raw record under a derivation's masks writes what the encoder writes under that derivation, for any index of its identities |
| `Transcode.ValueTranscodes` | crates/sysmlv2-cbor/src/encode.rs:728-809 | a raw value respelled is the value the encoder writes, whatever follows |
| `StreamWrite.ElisionIsMask` | crates/sysmlv2-cbor/src/stream.rs:239-253 | the computed masks are exactly those of the derivation |
| `StreamWrite.DerivedOwners` | crates/sysmlv2-cbor/src/stream.rs:220-235 | the flat lists give each element the encoder's first claimant, from `ownedRelatedElement` lists for `owningRelationship` and from `ownedRelationship` lists for `owningRelatedElement` |
| `StreamWrite.DocWritable` | crates/sysmlv2-cbor/src/stream.rs:95-192 | the streaming reader refuses exactly the elements the whole-array encoder refuses |
| `StreamWrite.StreamElements` | crates/sysmlv2-cbor/src/stream.rs:257-272 | the writing loop emits the encoder's element section |
| `StreamWrite.StreamedOrder` | crates/sysmlv2-cbor/src/delta.rs:365-375 | the walk over flat targets and per-slot ends is the canonical order |
| `StreamWrite.CanonicalRefs` | crates/sysmlv2-cbor/src/encode.rs:675-698 | the externals of a document do not depend on its order |
| `Stream.Read` | crates/sysmlv2-cbor/src/stream.rs:95-192 | reading lays down ids, targets, ends, records and rows, and refuses exactly repeated identities and unwritable elements |
| `Stream.Compact` | crates/sysmlv2-cbor/src/stream.rs:172-182 | compacting targets in place moves each end to where the shorter list ends |
| `Stream.Externals` | crates/sysmlv2-cbor/src/stream.rs:183-187 | the externals are the referenced identities outside the elements, ascending |
| `Patch.PlanIsComplete` | crates/sysmlv2-cbor/src/delta.rs:836-907 | for two different elements of one identity and metaclass a patch is always planned, and its replay is the target: the self-check never fails |
| `Patch.PatchInverts` | crates/sysmlv2-cbor/src/delta.rs:967-1048 | reading a planned patch over its base gives the target |
| `Patch.ReadingIsParsingAndReplaying` | crates/sysmlv2-cbor/src/delta.rs:967-1048 | on any payload, the applier's reader is the index's parser followed by a replay |
| `Patch.ParseOpsInverts` | crates/sysmlv2-cbor/src/index.rs:560-621 | parsing returns the operations that were written |
| `Patch.PlanSplice` | crates/sysmlv2-cbor/src/delta.rs:836-878 | a planned splice is in range and turns the base list into the target list |
| `Patch.SpliceIsLeast` | crates/sysmlv2-cbor/src/delta.rs:853-865 | any other splice that makes the target list of the base list removes and carries as many items, or more |
| `Patch.PlanSays` | crates/sysmlv2-cbor/src/delta.rs:846-871 | a field alike in both gets no operation, any other gets one: a splice exactly where both values are lists of a list field, else the target's value set, or the property removed |
| `Patch.PlanOps` | crates/sysmlv2-cbor/src/delta.rs:836-878 | planned ordinals ascend strictly and are in the table |
| `Patch.PlanFieldReplays` | crates/sysmlv2-cbor/src/delta.rs:882-907 | one field's operation sets that field to its target and touches no other |
| `Patch.ReplayOps` | crates/sysmlv2-cbor/src/delta.rs:882-907 | the replay loop edits one object in place and refuses what the replay refuses |
| `Cbor.HeadInverts` | crates/sysmlv2-cbor/src/cbor.rs:58-79 | reading a head inverts writing it for every major and 64-bit argument, whatever follows |
| `Cbor.NextTokInverts` | crates/sysmlv2-cbor/src/cbor.rs:212-258 | reading a token inverts writing it |
| `Cbor.LexInverts` | crates/sysmlv2-cbor/src/cbor.rs:212-258 | a written payload is read back token by token |
| `Cbor.EncAllInjective` | crates/sysmlv2-cbor/src/cbor.rs:58-124 | two payloads with the same bytes are the same tokens |
| `Cbor.ShortestHead` | crates/sysmlv2-cbor/src/cbor.rs:58-79 | no head that reads as a major and an argument is shorter than the one written |
| `Cbor.BeAt` | crates/sysmlv2-cbor/src/cbor.rs:58-79 | arguments are written most significant byte first |
| `Cbor.SkippedIsItems` | crates/sysmlv2-cbor/src/cbor.rs:298-333 | whatever the skip accepts, on any bytes, is that many complete items and nothing else |
| `Cbor.SkipConsumesItems` | crates/sysmlv2-cbor/src/cbor.rs:298-333 | the pending counter consumes exactly the items' bytes, nested containers included, whatever follows |
| `Cbor.IntToken` | crates/sysmlv2-cbor/src/cbor.rs:86-92 | a negative integer is carried by its complement, in range, and either token gives the integer back |
| `Cbor.Writer.WriteHead` | crates/sysmlv2-cbor/src/cbor.rs:58-79 | the writer appends the shortest head and nothing else |
| `Cbor.Writer.Int` | crates/sysmlv2-cbor/src/cbor.rs:86-92 | the writer appends that integer's token |
| `Cbor.Reader.Arg` | crates/sysmlv2-cbor/src/cbor.rs:183-192 | the reader advances past the announced argument or refuses |
| `Cbor.Reader.NextHead` | crates/sysmlv2-cbor/src/cbor.rs:212-232 | the reader advances past one head or refuses |
| `Cbor.Reader.SkipItems` | crates/sysmlv2-cbor/src/cbor.rs:305-333 | the skip loop stops where the specification says, or refuses |
| `Items.TakenIsSkipped` | crates/sysmlv2-cbor/src/cbor.rs:298-333 | the byte skip takes exactly the bytes of the tokens an item has |
| `Items.BodyIsItems` | crates/sysmlv2-cbor/src/encode.rs:454-511 | a written record is complete items |
| `Items.OpsAreItems` | crates/sysmlv2-cbor/src/delta.rs:929-963 | a written patch is complete items |
| `Describe.DescribeReportsDiff` | crates/sysmlv2-cbor/src/describe.rs:186-352 | inspecting an encoded delta without its base reports the true sizes of target minus base, changed common identities and base minus target, counts exactly the records that shipped a patch, and lists its mode, both digests in their places, the claims, the base's size, the number of externals, the created identities and the targets of updates and deletes in record order up to the cap, whether a list was cut, the number of exceptions, and the units |
| `Describe.RecordCounted` | crates/sysmlv2-cbor/src/describe.rs:263-317 | a written record is counted for what it is and stepped over exactly |
| `Describe.CountLoop` | crates/sysmlv2-cbor/src/describe.rs:259-317 | the walk's loop over four counters |
| `Persist.Persist` | crates/sysmlv2-cli/src/lib.rs:2625-2786 | whatever outsiders do and whichever calls fail: success means that on every target one replacement put the new text there, none took it back, and it is still there unless outsiders wrote after; a refusal names a change with a cause (an unresolved, repeated, missing or differing target, a failed call, or an outside edit of that target), and leaves each target as it was or with a retained copy holding its old text; a copy is retained only for a failed rollback call or an outside edit of its target; each replacement put its own text, a restoration the old one, and overwrote what its own recheck saw, unless outsiders wrote between that recheck and it; and every other file is as it was, unless outsiders changed it, save a sidecar that is a retained copy or whose own removal failed |
| `Persist.QuietRefusal` | crates/sysmlv2-cli/src/lib.rs:2739-2773 | with no outside edit of a target and every rollback read and replace working, a refusal retains nothing, leaves every target as it was and undoes every replacement made |
| `Persist.QuietSuccess` | crates/sysmlv2-cli/src/lib.rs:2625-2786 | distinct resolved targets holding their old text, no outside edit of one and no failed call: the operation succeeds and installs every new text |
| `Persist.NothingLeft` | crates/sysmlv2-cli/src/lib.rs:2774-2786 | with every removal call working, any file beside the targets and the retained copies is as it was, unless outsiders changed it: no staged text or copy is left |
| `Persist.RefusalLeavesAll` | crates/sysmlv2-cli/src/lib.rs:2739-2786 | with no outside edit of a target and every rollback and removal call working, a refusal leaves every file as it was |
| `Persist.RetainedForCause` | crates/sysmlv2-cli/src/lib.rs:2739-2773 | a retained copy holds the old text, and its change had a rollback call that failed or an outside edit |
| `Persist.OverwrittenOnlyInRace` | crates/sysmlv2-cli/src/lib.rs:2721-2762 | what a replacement put is the new text and what a restoration put the old one; what a replacement overwrote is the old text, and a restoration the new one, unless an outsider wrote between that call's own recheck and it |
| `Persist.ReplaceAll` | crates/sysmlv2-cli/src/lib.rs:2721-2774 | the replace loop and its failure path; it stops only at a change whose recheck or replacement failed, or that outsiders edited |
| `Persist.ReplaceOne` | crates/sysmlv2-cli/src/lib.rs:2721-2738 | one replacement: recheck, then replace; it stops only for a failed call or an outside edit of that target |
| `Persist.RollbackOne` | crates/sysmlv2-cli/src/lib.rs:2742-2762 | a target that still holds what was installed is restored, and is left only for a failed call or an outside edit of that target |
| `Persist.RollBack` | crates/sysmlv2-cli/src/lib.rs:2739-2773 | the rollback loop, newest first, then the clean-up; a copy is retained only where its own rollback was hindered |
| `Persist.StageAll` | crates/sysmlv2-cli/src/lib.rs:2667-2719 | staging writes both sidecars of every target under new names and touches nothing else; it fails only for a failed call or an outside edit of that target, and then nothing it made is left but what could not be removed |
| `Persist.Preflight` | crates/sysmlv2-cli/src/lib.rs:2625-2665 | every target resolved once, unchanged and writable, or nothing happens and a change has the cause |
| `Persist.CleanUp` | crates/sysmlv2-cli/src/lib.rs:2929-2936 | every staged text and every copy that is not retained goes, except where its own removal failed, and nothing else does |
| `Persist.DropCopies` | crates/sysmlv2-cli/src/lib.rs:2774-2786 | after success every recovery copy goes, except where its own removal failed, and no staged text is left |
| `Governing.Pass.Govern` | crates/sysmlv2-lint/src/pattern.rs:416-474 | a pattern is found exactly when some type at or above carries one; the answer is that of a nearest type the search can stop at, and is the nearest pattern if and only if no pattern is nearer than it in the layers between that stop and the answer remembered there; with nothing remembered it always is; what is remembered stays true and every search ends |
| `Governing.Pass.GovernAll` | crates/sysmlv2-lint/src/pattern.rs:416-474 | the same for any sequence of queries, each answered by the search over exactly what the queries before it left remembered |
| `Governing.Pass.Explore` | crates/sysmlv2-lint/src/pattern.rs:425-464 | the queue loop finds what the search function finds, or has searched everything at and above the type |
| `GoverningRuns.AlwaysNearestIff` | crates/sysmlv2-lint/src/pattern.rs:410-474 | the exact condition on the graph alone: every answer of every sequence of queries from an empty memo is the nearest pattern, if and only if from each type, what a first search finds at the end of any trail of types it goes past is nearest |
| `GoverningRuns.SingleIsSteady` | crates/sysmlv2-lint/src/pattern.rs:410-474 | with at most one explicit supertype per type, every answer of every sequence of queries is the nearest pattern |
| `GoverningRuns.DiamondUnsteady` | crates/sysmlv2-lint/src/pattern.rs:410-474 | the diamond fails that condition: asked about one side first, it answers what is not nearest |
| `GoverningRuns.SearchAgrees` | crates/sysmlv2-lint/src/pattern.rs:425-471 | over what earlier queries left, a search finds what a first search would, or a remembered answer a first search goes past, and the latter exactly when there is one |
| `GoverningRuns.KeptAfter` | crates/sysmlv2-lint/src/pattern.rs:416-474 | after any sequence of queries, each remembered answer is what a first search finds at the end of a trail |
| `Governing.NearestIff` | crates/sysmlv2-lint/src/pattern.rs:410-474 | the exact condition on graph and memo under which the answer remembered at the search's stop is the nearest pattern |
| `Governing.SearchStops` | crates/sysmlv2-lint/src/pattern.rs:425-464 | the breadth-first search stops at a type no other stop is nearer than, and answers what is known there |
| `Governing.FreshIsNearest` | crates/sysmlv2-lint/src/pattern.rs:410-474 | with nothing remembered the answer is at the least chain length of all patterns |
| `Governing.Pass.Remember` | crates/sysmlv2-lint/src/pattern.rs:465-471 | an absence is remembered for every type the search passed through |
| `Governing.NoneAlong` | crates/sysmlv2-lint/src/pattern.rs:425-471 | once nothing is left to search, no chain from a searched type reaches a pattern |
| `Governing.SearchFinds` | crates/sysmlv2-lint/src/pattern.rs:425-464 | what the search finds carries a pattern and is above the type asked about |
| `Governing.MemoNotNearest` | crates/sysmlv2-lint/src/pattern.rs:410-474 | the answer need not be the nearest one: on a diamond an earlier query changes it to one further away, though the memo is sound |
| `Zip.ZipRoundTrip` | crates/sysmlv2-cli/src/kpar.rs:112-316 | reading a written archive gives the same entries in order exactly when their total size is within the ceiling and the end record's fields do not spell its signature again |
| `Zip.ExpandsWithin` | crates/sysmlv2-cli/src/kpar.rs:112-185 | whatever an archive declares, it expands to at most the ceiling |
| `Zip.EndFound` | crates/sysmlv2-cli/src/kpar.rs:114-121 | the backward scan finds the end record exactly when its fields do not spell the signature again |
| `Zip.SignatureInOffset` | crates/sysmlv2-cli/src/kpar.rs:302-314 | a codec and one stored entry, within the ceiling, that are written as an archive which is refused on reading |
| `Zip.ZipWriteLoop` | crates/sysmlv2-cli/src/kpar.rs:249-316 | the loop that grows local records and directory together writes that archive, or refuses the field that overflows |
| `Zip.ZipEntriesLoop` | crates/sysmlv2-cli/src/kpar.rs:122-184 | the reading loop with its running total |
| `Zip.RecordRead` | crates/sysmlv2-cli/src/kpar.rs:125-181 | a directory record leads to its entry's data wherever both lie |
| `Zip.RecordOfAny` | crates/sysmlv2-cli/src/kpar.rs:125-183 | a directory record of any writer, with extra fields and a comment of its own, names its entry and is stepped over exactly |
| `Zip.DataOfAny` | crates/sysmlv2-cli/src/kpar.rs:144-158 | an entry's data starts after the name and extra field its local header announces |
| `Zip.ExpandsIff` | crates/sysmlv2-cli/src/kpar.rs:162-177 | an entry expands exactly where it is stored or deflated, within what the ceiling leaves, and of the size declared |
| `Zip.WrittenHeaders` | crates/sysmlv2-cli/src/kpar.rs:254-300 | every entry of a written archive is described alike by its local and its directory header, field by field at its offset: version, flags, method, time, checksum, both sizes, name length; its data follows, in the shorter of its two forms, and the directory leads to it |
| `Zip.WrittenEnd` | crates/sysmlv2-cli/src/kpar.rs:301-314 | the archive ends in a record of the entry count, twice, and the size and start of its directory |
| `Normalize.NormalizeIdempotent` | crates/sysmlv2-cbor/src/canonical.rs:138-196 | graph normalising twice is normalising once, on every document, though claimants are chosen before the sort |
| `Normalize.NormalizeIgnoresDefaults` | crates/sysmlv2-cbor/src/canonical.rs:138-271 | graph normalising the canonical spelling of a document is graph normalising the document |
| `Normalize.CanonicalIffElided` | crates/sysmlv2-cbor/src/canonical.rs:39-88 | accepted documents have one canonical spelling exactly when they differ only in which defaults they spell |
| `Normalize.CanonicalizeIdempotent` | crates/sysmlv2-cbor/src/canonical.rs:39-88 | canonicalising twice is canonicalising once |
| `Normalize.CompletedIsNormal` | crates/sysmlv2-cbor/src/canonical.rs:175-193 | a completed backpointer is no default of any kind, so it stays spelled |
| `Normalize.ClaimSurvives` | crates/sysmlv2-cbor/src/canonical.rs:162-193 | whatever the sorted result claims, the payload claimed |
| `Normalize.NormalizedByName` | crates/sysmlv2-cbor/src/canonical.rs:138-271 | property by property: of the table's fields those that are spelled and not at their default, the mirror always, nothing else; and each absent backpointer of the table a reference to the first payload element whose `ownedRelatedElement`, for `owningRelationship`, or `ownedRelationship`, for `owningRelatedElement`, names this one, absent where none does |
| `Normalize.NormalizedIff` | crates/sysmlv2-cbor/src/canonical.rs:138-271 | normalising refuses exactly an unknown metaclass and a key that neither its table nor its full form names |
| `Normalize.CanonicalizedIff` | crates/sysmlv2-cbor/src/canonical.rs:39-88 | canonicalising refuses exactly an unknown metaclass and a key its table does not name |
| `SortOrder.NormalizedAscends` | crates/sysmlv2-cbor/src/canonical.rs:194-195 | the result lists its elements by ascending identity |
| `SortOrder.SpellOrders` | crates/sysmlv2-cbor/src/canonical.rs:194-195 | the text order of two identities is their numeric order |
| `Normalize.SortStable` | crates/sysmlv2-cbor/src/canonical.rs:194-195 | elements of one identity keep their order |
| `Normalize.CanonicalSays` | crates/sysmlv2-cbor/src/canonical.rs:52-88 | what an element has stays verbatim, and each absent field with a default has it |
| `Normalize.SortSorts` | crates/sysmlv2-cbor/src/canonical.rs:194-195 | the result is ordered by identity text and is a permutation |
| `NormalizeLoops.GraphNormalize` | crates/sysmlv2-cbor/src/canonical.rs:138-196 | the loops that fill claim maps in payload order and complete elements compute that normal form: the normalised elements with each absent backpointer the first claimant by name, stably sorted |
| `NormalizeLoops.NormalizeElement` | crates/sysmlv2-cbor/src/canonical.rs:222-271 | derived keys drop, defaults go, the mirror is spelled, foreign keys are refused |
| `NormalizeLoops.CanonicalizeElement` | crates/sysmlv2-cbor/src/canonical.rs:52-88 | every absent default is inserted, what is present stays, and a foreign key is refused |
| `NormalizeLoops.Claim` | crates/sysmlv2-cbor/src/canonical.rs:162-174 | first claimant wins |
| `RebaseLoops.RebasedIsTarget` | crates/sysmlv2-cbor/src/delta.rs:411-665 | a rebase that succeeds is the target under a renaming: same order, distinct identities, each path-matched element under its partner's identity, each unpaired one under its own, and the canonical order carried along |
| `RebaseLoops.RebaseIds` | crates/sysmlv2-cbor/src/delta.rs:435-665 | the whole operation for every hash order: it returns that renaming of a complete run, and refuses only where a path cannot be derived or the renaming collides |
| `RebaseLoops.Align` | crates/sysmlv2-cbor/src/delta.rs:600-631 | the worklist ends and takes up every adopted pair exactly once |
| `RebaseLoops.AlignChildren` | crates/sysmlv2-cbor/src/delta.rs:606-631 | one parent's children are paired as the alignment says, and every pair made is queued |
| `RebaseLoops.ExactPass` | crates/sysmlv2-cbor/src/delta.rs:534-544 | every path match is adopted |
| `RebaseLoops.PairRoots` | crates/sysmlv2-cbor/src/delta.rs:493-511 | the loops compute the root pairing that `RebasePairs.RootsPairedByName` describes |
| `RebasePairs.RootsPairedByName` | crates/sysmlv2-cbor/src/delta.rs:445-511 | two roots pair by name exactly where each side has just one root of that name; the roots left over pair in payload order while base roots last; nothing else pairs |
| `RebasePairs.RootNameIs` | crates/sysmlv2-cbor/src/delta.rs:455-477 | a root is called by the first string among its relationships' `memberName` and `memberShortName` and, before the next relationship, the `declaredName` and `declaredShortName` of the elements it owns |
| `RebasePairs.PartnerIs` | crates/sysmlv2-cbor/src/delta.rs:513-544 | a path match is the last base element with the same chain of segments under the root this element's root is paired with |
| `RebasePairs.LooksAlike` | crates/sysmlv2-cbor/src/delta.rs:575-602 | two elements look alike exactly if they agree on metaclass and name and the first related elements they own do too, or they own none; the name is the first string under `declaredName`, `declaredShortName`, `memberName`, `memberShortName` |
| `RebasePairs.ChildrenAre` | crates/sysmlv2-cbor/src/delta.rs:570-574 | the children of an element are the targets it holds of `ownedRelationship`, then of `ownedRelatedElement`, in list order |
| `RebaseLoops.Collides` | crates/sysmlv2-cbor/src/delta.rs:654-663 | the collision check finds exactly repeated identities |
| `RebaseLoops.ExternalCaptured` | crates/sysmlv2-cbor/src/delta.rs:634-664 | a whole run over constant paths in which a reference that named no element of the target names its own element after it |
| `RebaseLoops.ExternalFate` | crates/sysmlv2-cbor/src/delta.rs:534-664 | for an identity no target element has, after any successful run: it is named exactly if some element adopted it; the identity of every path match is adopted; and only that of a base element matched by path, or looking like an unmatched target element, ever is; which of those are is `RebaseConfluence.CaptureIff` |
| `RebaseConfluence.RunIsPaired` | crates/sysmlv2-cbor/src/delta.rs:519-631 | where what no path matches is a child of one element at most, once, every whole run, in whatever order the worklist is taken, pairs exactly the pairs reached from a path match by aligning children |
| `RebaseConfluence.RunsAgree` | crates/sysmlv2-cbor/src/delta.rs:595-631 | on such documents any two whole runs over one set of path matches end in the same pairing and the same renaming |
| `RebaseConfluence.OutcomesAgree` | crates/sysmlv2-cbor/src/delta.rs:435-665 | on such documents a rebase returns the same document, or refuses alike, whatever order a hash map gives |
| `RebaseConfluence.CaptureIff` | crates/sysmlv2-cbor/src/delta.rs:534-664 | on such documents, for an identity no target element has: after a rebase an element has it, if and only if a base element of that identity is reached from a path match; else it goes on naming nothing |
| `RebaseOrder.CaptureFollowsOrder` | crates/sysmlv2-cbor/src/delta.rs:600-631 | on a base and a target whose two roots share an annotation, with the paths their owner chains give, two orders of the worklist are both whole runs; one captures an outside reference and the other leaves it naming nothing |
| `RebaseOrder.TargetFollows` | crates/sysmlv2-model/src/ids.rs:500-560 | the paths used for that target are those of its owner chains: a named member claims its own segment and the shared annotation takes its ordinal |
| `Rebase.NamesSurvive` | crates/sysmlv2-cbor/src/delta.rs:636-653 | every in-payload identity names the same element after the renaming, and an external one that is no base identity still names none |
| `Rebase.NamesSurviveExactly` | crates/sysmlv2-cbor/src/delta.rs:636-653 | for one identity and any renaming fit to rebase: it names what it named exactly if it is in the payload or nothing is renamed to it; what is renamed to it is read off the inputs by `RebaseConfluence.CaptureIff` |
| `Rebase.ReferencesSurvive` | crates/sysmlv2-cbor/src/delta.rs:636-653 | every reference of every property, however nested, leads to the same position before and after |
| `Rebase.MirrorSurvives` | crates/sysmlv2-cbor/src/delta.rs:634-653 | an element mirror stays a mirror |
| `Rebase.RebaseKeepsOrder` | crates/sysmlv2-cbor/src/delta.rs:239-253 | rebasing commutes with canonicalising |
| `RebasePairs.RunPairs` | crates/sysmlv2-cbor/src/delta.rs:546-631 | a shifted run of same-shaped siblings pairs wholesale |
| `RebasePairs.DeletionPairs` | crates/sysmlv2-cbor/src/delta.rs:546-631 | one deleted sibling churns no other, unless it looks like the next |
| `RebasePairs.InsertionPairs` | crates/sysmlv2-cbor/src/delta.rs:546-631 | one inserted sibling churns no other, unless it looks like the next |
| `RebasePairs.ReplacementPairs` | crates/sysmlv2-cbor/src/delta.rs:546-631 | one replaced sibling churns no other: neither it nor what replaced it is paired |
| `RebasePairs.AdoptSound` | crates/sysmlv2-cbor/src/delta.rs:521-536 | adopting a pair keeps every earlier pair justified and every renaming traced to a pair |

## Left out

- Id-elided payloads and id derivation: the derivation rules live outside the modelled files; an elided payload is refused here as needing a resolver.
- The full form, its wide presence bitmap and its tables: a repetition of the compact case.
- Graph-format axes and graph-format validation: the scheme byte is read and written, what it promises of a graph is not modelled.
- The resolver artifact of a lifted store: not part of this model.
- Claims: sorted, checked for repeats, carried and read back; what routes by them is not modelled.
- Duplicate identities and non-canonical spellings of an identity in a document: hypotheses of the codec theorems, as the stream code states them itself; the record run of a delta, normalising and rebasing take duplicates as they come.
- Text as UTF-8: text is bytes, and malformed UTF-8 is not refused.
- The width of `usize`: announced lengths are unbounded numbers held against the bytes left, so the 32-bit narrowing refusals do not appear.
- Floats: finite 64-bit patterns compared bit for bit, so the two zeroes differ here and are equal to the JSON library.
- The respelling of literal numbers (`crates/sysmlv2-cbor/src/canonical.rs:284-311`): normalising is modelled as spelled.
- Error messages and which of several errors is reported: refusals carry only the kind a caller can tell apart.
- Hash, deflate, inflate and CRC-32: functions without properties of their own; inflating is assumed to undo deflating, and no digest is assumed injective.
- JSON objects other than references and symbolic names: one opaque kind of value, which the encoder refuses; an `@id` inside one is not renamed by a rebase and claims nothing in an ownership list.
- Describing snapshots, elided deltas and index artifacts: only the summary of a delta is related to its diff.
- Index artifact signature and version gates are compared as bytes; their content is not explained.
- File metadata, permissions and sidecar naming of the replace protocol: a sidecar is a new file under a name nothing has, and outsiders are assumed to leave sidecars alone.
- The compilation of an annotation into a pattern and its diagnostics: an abstract set of types that carry one.
- KPAR manifests and project metadata around the archive.
- Governing.Pass.Govern: promises the nearest annotation, which the source's comment speaks of, exactly where no rival lies between stop and answer, because the remembered answers make it false elsewhere (`Governing.MemoNotNearest`); `GoverningRuns.AlwaysNearestIff` has the graphs where no earlier query matters.
- Lenient.LenientMerges: stated for a held document whose digest is not the base's; where it is, the declared result digest is checked as well, and `DeltaTheorems.ApplyUndoesDiff` covers the base itself.
- RebaseLoops.ExternalFate: leaves open which look-alikes are captured, because with a child shared between owners the order of the worklist decides (`RebaseOrder.CaptureFollowsOrder`); where none is shared `RebaseConfluence.CaptureIff` settles it.
- Rebase.NamesSurviveExactly: its condition is on the renaming, because it is stated for any renaming; `RebaseConfluence.CaptureIff` gives the condition on the inputs.
- RebaseConfluence.RunIsPaired: an element listed twice by one owner counts as shared, because the two pairs it joins then compete for its children.
- RebaseOrder.CaptureFollowsOrder: its relation of paths to owners covers the segments those documents need, relationship and element ordinals and member names, not the whole naming rule.
- RebaseLoops.RebaseIds: ownership paths are an arbitrary function of a document, so nothing is said of which elements share one; roots are matched through last-wins lookups instead of hash maps.
- Encoding, decoding, resolving and applying as whole operations are functions on token sequences; the byte reader and writer, the record and entry loops, the traversals, the transition and the replays are in-place methods proved against them. The reuse of one output buffer by the encoders is not captured.
