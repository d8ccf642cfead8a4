# Chat service TL codec and user-data cache helpers, in Dafny

This project models two pieces of the teamgram server.

The first is the generated TL binary codec of the `chat` service. A TL object on
the wire is a 32-bit constructor tag, an optional 32-bit `flags` word, then its
fields in declared order. The model covers:

- the constructor registry: the tag → factory map `clazzIdRegisters2`,
  `NewTLObjectByClassID` and `CheckClassID`. It covers six data constructors and
  34 `chat.*` method records;
- the polymorphic supertype `ChatInviteExt`. Its three variants
  (chatInviteAlready, chatInvite, chatInvitePeek) share one storage record, and
  the `To_*` / `MakeTL*` views project it;
- the single-variant data types `ChatInviteImported`, `RecentChatInviteRequesters`
  and `UserChatIdList`;
- the 34 `TLChat*` method records. Their encode and decode are gated on the
  record's `Constructor`, and their optional fields are gated on bits of the
  flags word;
- the vector containers `Vector_MutableChat`, `Vector_Long`,
  `Vector_UserChatIdList`, `Vector_ChatAdminWithInvites`,
  `Vector_ExportedChatInvite` and `Vector_ChatInviteImporter`.

The second is `cache_user_data.go` of the user service. It covers the cache-key
helpers (gen / parse / is), the emoji-status selector, the `CacheUserData`
constructor and its nil-safe getters.

## How the wire is modelled

The byte cursor (`mtproto.EncodeBuf` / `DecodeBuf`) belongs to a library that is
not part of this model. `Wire` therefore models it as a sequence of tokens, one
per primitive write:

- a 32-bit word, a 64-bit long, a string, a long vector or a string vector;
- one token per nested object of an external type (`MutableChat`, `Photo`,
  `Bool`, ...), which stands for that object's own encoding.

A read consumes one token of the expected kind. Reading at the end, or reading a
token of the wrong kind, sets a sticky fault. After a fault, every later read
returns a zero value and consumes nothing. `GetError` reports the fault once, at
the end, as `BufferFault`.

Other modelling choices:

- Flags words are unsigned values below 2^32. `flags |= 1 << k` and
  `flags & (1 << k) != 0` are stated arithmetically (`SetBit`, `BitOf`).
- Go stores a constructor as a signed `int32` and compares it through
  `uint32(...)`. This is `U32`, and the tag written for an unsigned hex tag is
  `S32`.
- Go pointers and nil slices become `Option`. A nil slice and an empty one write
  the same vector, so a list field whose presence sets no bit is a plain sequence.
- The method records share one schema-driven codec. `ChatMethods.FieldsOf` lists
  each method's fields in wire order as:
  - plain fields;
  - `flags.N?true` booleans;
  - fields gated on bit N.

  The generic `Schema.EncodeBody` / `Schema.DecodeBody` then do what each
  generated `Encode` / `Decode` body does.
- Go's `make([]T, l1)` panics for a negative count `l1`. The model returns the
  error `NegativeLength` instead, so a count that wrapped to a negative value
  reads back as that error.
- The registry's name lookup (`GetClazzID`, `clazzIdNameRegisters2`) is defined
  elsewhere. It is passed in as the functions `NameOf` (tag → predicate name) and
  `ClassOf` (predicate name → class id for the layer).

### Source behaviour the model keeps

- A supertype's `Decode` stores the read tag in `Constructor` before it rejects an
  unknown tag. A rejected decode therefore changes the target record's
  `Constructor`. `ChatInvite.DecodeChatInviteExt` and the other supertype decoders
  state this.
- A method record's `Decode` does not read or check a tag. On a `Constructor`
  mismatch it reads nothing and returns the cursor's error, which is no error for
  a healthy cursor (`ChatMethods.MismatchIsInert`).
- Encoding for a layer whose class id is not the type's own tag yields empty
  output, not a failure.
- The three codecs report three different errors:
  - a supertype `Decode` gives "unknown constructor" for an unknown tag;
  - a variant view's `Decode` gives "invalid constructor" on a storage
    constructor mismatch;
  - a method record's `Decode` gives only the cursor's error.
- A decode into a record that already holds values keeps them:
  - for every flag-gated field whose bit is clear
    (`ChatMethods.UnsetFieldsKeepOldValues`);
  - for `requestNeeded` of a reused chatInvite record
    (`ChatInvite.ReusedRecordKeepsRequestNeeded`).

  The round trips are therefore stated from fresh records, as the registry's
  factories build them.
- A vector of 2^31 to 2^32 - 1 elements writes a count that wraps to a
  negative `int32` (`Vectors.ObjVectorCountWraps`).
- A nested record that cannot be written still counts where its container
  says it is present:
  - present requesters set flag bit 0 of chatInviteImported and write nothing,
    so the decoder takes the next word as their tag and reports no error
    (`Imported.UnwritableRequestersMisread`);
  - an unwritable element of a userChatIdList vector is counted but writes
    nothing (`Vectors.UnwritableElementFaults`).

## Model

| member | source | states |
|---|---|---|
| Registry.KeyIsSignedTag | app/service/biz/chat/chat/codec_schema.tl.pb.go:31-235 | each signed decimal map key is the signed reading of the hex tag that the entry's codec writes and checks |
| Registry.MethodTagIsNotDataTag | app/service/biz/chat/chat/codec_schema.tl.pb.go:31-235 | no method tag coincides with any of the six data-constructor tags |
| Registry.Lookup | app/service/biz/chat/chat/codec_schema.tl.pb.go:237-243 | the map lookup finds only entries whose codec tag is the key read as unsigned |
| Registry.LookupFindsKey | app/service/biz/chat/chat/codec_schema.tl.pb.go:31-243 | for every key and entry: the lookup finds that entry exactly when it is registered under that key, so unregistered keys find nothing |
| Registry.KeysDistinct | app/service/biz/chat/chat/codec_schema.tl.pb.go:31-235 | two entries share a key only if they are the same entry (the 40 keys are pairwise distinct) |
| Registry.Fresh | app/service/biz/chat/chat/codec_schema.tl.pb.go:31-235 | each factory builds an object of its own entry whose constructor is that entry's key |
| Registry.NewTLObjectByClassID | app/service/biz/chat/chat/codec_schema.tl.pb.go:237-243 | an object exists exactly for registered keys; its constructor equals the requested key and it belongs to the entry registered under that key; nil otherwise |
| Registry.CheckClassID | app/service/biz/chat/chat/codec_schema.tl.pb.go:245-248 | true exactly when some entry is registered under the key, which is exactly when `NewTLObjectByClassID` returns an object |
| Registry.MethodFactory | app/service/biz/chat/chat/codec_schema.tl.pb.go:31-243 | a key whose unsigned reading is a method's tag yields a fresh record of that method with every field absent |
| Registry.MethodDispatchRoundTrip | app/service/biz/chat/chat/codec_schema.tl.pb.go:31-243 | for every encodable method call: the leading word is its constructor, the registry's factory for that word decodes the rest back to the call, and the cursor stops after it with no error |
| Registry.UserChatIdListDispatchRoundTrip | app/service/biz/chat/chat/codec_schema.tl.pb.go:31-243 | the factory for a userChatIdList's leading word yields a view that decodes the written user id and chat id list |
| ChatMethods.MethodOfTag | app/service/biz/chat/chat/codec_schema.tl.pb.go:31-235 | a method found for a tag has that tag |
| ChatMethods.TagOf | app/service/biz/chat/chat/codec_schema.tl.pb.go:31-235 | every method's constructor tag is an unsigned 32-bit constant, the value each `Encode` writes with `x.UInt` and whose `int32` form keys the registry |
| ChatMethods.TagIdentifiesMethod | app/service/biz/chat/chat/codec_schema.tl.pb.go:31-235 | looking up a method's tag gives back that method, so the 34 method tags are pairwise distinct |
| ChatMethods.SchemaBitsDistinct | app/service/biz/chat/chat/codec_schema.tl.pb.go:1122-3062 | every method gives each flag-gated field its own bit, except getExportedChatInvites, and only it |
| ChatMethods.FieldsOf | app/service/biz/chat/chat/codec_schema.tl.pb.go:1122-3062 | every method has at least one field; exportChatInvite, getExportedChatInvites, getChatInviteImporters, editExportedChatInvite and hideChatJoinRequests open with two plain longs and then a flagged field, and no other method has a flagged field; every flag bit is one of bits 0 to 4 |
| ChatMethods.FlagsWordIffFlagged | app/service/biz/chat/chat/codec_schema.tl.pb.go:2049-2962 | a method writes a flags word after its tag, and so reads one back, exactly when it is one of those five methods |
| ChatMethods.NewRecord | app/service/biz/chat/chat/codec_schema.tl.pb.go:31-235 | `&TLChatX{Constructor: c}` is well typed, carries method and constructor, and has no field present |
| ChatMethods.Encode | app/service/biz/chat/chat/codec_schema.tl.pb.go:1122-3062 | a constructor that is not the method's tag writes nothing; otherwise the output starts with the method's tag |
| ChatMethods.Decode | app/service/biz/chat/chat/codec_schema.tl.pb.go:1122-3062 | keeps method and constructor and well-typedness; a mismatched constructor leaves record and cursor untouched and returns the cursor's error; a faulted cursor stays put |
| ChatMethods.MismatchIsInert | app/service/biz/chat/chat/codec_schema.tl.pb.go:1122-1158 | with a mismatched constructor, encode is empty and decode reads nothing |
| ChatMethods.UnsetFieldsKeepOldValues | app/service/biz/chat/chat/codec_schema.tl.pb.go:2104-2138 | a flag-gated field whose bit the incoming flags word leaves clear keeps its previous value |
| ChatMethods.RoundTrip | app/service/biz/chat/chat/codec_schema.tl.pb.go:1122-3062 | for all 34 methods: decoding a call's encoding (after the tag) into a fresh record gives the call back, stops at its end and reports no error (the listing needs agreeing offsets, see below) |
| ChatMethods.ExportChatInviteFlagBits | app/service/biz/chat/chat/codec_schema.tl.pb.go:2057-2075 | exportChatInvite's flags have bit 0/1/4 set iff expire_date/usage_limit/title are present, bit 2/3 set iff legacy_revoke_permanent/request_needed are true, and no other bit |
| ChatMethods.ExportChatInviteLength | app/service/biz/chat/chat/codec_schema.tl.pb.go:2049-2098 | tag, flags, two ids, plus one item per present optional field: the true-flags carry no payload |
| ChatMethods.LoneOffsetSetsBit | app/service/biz/chat/chat/codec_schema.tl.pb.go:2256-2267 | when just one of offset_date and offset_link is present, bit 2 is still set |
| ChatMethods.ListingFaults | app/service/biz/chat/chat/codec_schema.tl.pb.go:2294-2322 | with bit 2 set and only one offset written, the decoder reads both and faults |
| ChatMethods.LoneOffsetFaults | app/service/biz/chat/chat/codec_schema.tl.pb.go:2247-2322 | a getExportedChatInvites call with exactly one offset does not survive its own round trip: decoding it reports a buffer fault |
| ChatMethods.GetExportedChatInvitesRoundTripIff | app/service/biz/chat/chat/codec_schema.tl.pb.go:2247-2322 | the listing round-trips iff offset_date and offset_link are both present or both absent; otherwise the error is a buffer fault |
| ChatMethods.PadOffsets | app/service/biz/chat/chat/codec_schema.tl.pb.go:2247-2322 | the corrected encoder's input: the offsets then agree, only an absent offset changes, and other methods are untouched |
| ChatMethods.EncodeFixed | app/service/biz/chat/chat/codec_schema.tl.pb.go:2247-2288 | the corrected encoder agrees with the original on every other method |
| ChatMethods.FixedRoundTrip | app/service/biz/chat/chat/codec_schema.tl.pb.go:2247-2322 | every call of every method, the listing with a lone offset included, decodes without error, and each present field comes back |
| Schema.FlagsOfBits | app/service/biz/chat/chat/codec_schema.tl.pb.go:2057-2075 | bit j of a computed flags word is set iff some flag-gated field on bit j is present |
| Schema.DistinctBitsAreFaithful | app/service/biz/chat/chat/codec_schema.tl.pb.go:2057-2075 | when fields use distinct bits, each bit of the computed flags word says exactly whether its field is present |
| Schema.DecodeField | app/service/biz/chat/chat/codec_schema.tl.pb.go:2104-2134 | a gated field whose bit is clear keeps its prior value and reads nothing; typing is preserved |
| Schema.DecodeFields | app/service/biz/chat/chat/codec_schema.tl.pb.go:2104-2138 | length and typing preserved; fields with a clear bit keep their old values; a true flag is never reset to false |
| Schema.FieldRoundTrip | app/service/biz/chat/chat/codec_schema.tl.pb.go:2079-2134 | one field, written then read under a faithful flags word, comes back and consumes exactly its tokens |
| Schema.FieldsRoundTrip | app/service/biz/chat/chat/codec_schema.tl.pb.go:2079-2134 | a field list written in order and read under a faithful flags word comes back whole, stopping exactly at its end |
| Schema.BodyRoundTrip | app/service/biz/chat/chat/codec_schema.tl.pb.go:2049-2138 | flags word (when the method has one) plus fields round-trip from zero values |
| ChatInvite.TagsMatchPredicates | app/service/biz/chat/chat/codec_schema.tl.pb.go:259-311 | the predicate → tag choice of Encode and the tag → predicate choice of Decode are mutually inverse on the three variants |
| ChatInvite.ToChatInviteAlready | app/service/biz/chat/chat/codec_schema.tl.pb.go:331-336 | the view stamps its predicate and keeps every other field of the storage |
| ChatInvite.ToChatInvite | app/service/biz/chat/chat/codec_schema.tl.pb.go:339-344 | the view stamps its predicate and keeps every other field of the storage |
| ChatInvite.ToChatInvitePeek | app/service/biz/chat/chat/codec_schema.tl.pb.go:347-352 | the view stamps its predicate and keeps every other field of the storage |
| ChatInvite.MakeTLChatInviteAlready | app/service/biz/chat/chat/codec_schema.tl.pb.go:355-364 | a view over the given storage, or over empty storage for nil, carrying the view's predicate |
| ChatInvite.MakeTLChatInvite | app/service/biz/chat/chat/codec_schema.tl.pb.go:432-441 | a view over the given storage, or over empty storage for nil, carrying the view's predicate |
| ChatInvite.MakeTLChatInvitePeek | app/service/biz/chat/chat/codec_schema.tl.pb.go:569-578 | a view over the given storage, or over empty storage for nil, carrying the view's predicate |
| ChatInvite.AlreadyToExt | app/service/biz/chat/chat/codec_schema.tl.pb.go:366-369 | the storage handed back carries the view's predicate and the view's fields |
| ChatInvite.InviteToExt | app/service/biz/chat/chat/codec_schema.tl.pb.go:443-446 | the storage handed back carries the view's predicate and the view's fields |
| ChatInvite.PeekToExt | app/service/biz/chat/chat/codec_schema.tl.pb.go:580-583 | the storage handed back carries the view's predicate and the view's fields |
| ChatInvite.TLChatInviteAlready.SetChat | app/service/biz/chat/chat/codec_schema.tl.pb.go:371 | after the call the storage's `chat` is the given value, and every other field of the storage is what it was |
| ChatInvite.TLChatInvite.SetRequestNeeded | app/service/biz/chat/chat/codec_schema.tl.pb.go:449 | after the call the storage's `requestNeeded` is the given value, and every other field of the storage is what it was |
| ChatInvite.TLChatInvite.SetTitle | app/service/biz/chat/chat/codec_schema.tl.pb.go:452 | after the call the storage's `title` is the given value, and every other field of the storage is what it was |
| ChatInvite.TLChatInvite.SetAbout | app/service/biz/chat/chat/codec_schema.tl.pb.go:455 | after the call the storage's `about` is the given value, and every other field of the storage is what it was |
| ChatInvite.TLChatInvite.SetPhoto | app/service/biz/chat/chat/codec_schema.tl.pb.go:458 | after the call the storage's `photo` is the given value, and every other field of the storage is what it was |
| ChatInvite.TLChatInvite.SetParticipantsCount | app/service/biz/chat/chat/codec_schema.tl.pb.go:461 | after the call the storage's `participantsCount` is the given value, and every other field of the storage is what it was |
| ChatInvite.TLChatInvite.SetParticipants | app/service/biz/chat/chat/codec_schema.tl.pb.go:464 | after the call the storage's `participants` is the given value, and every other field of the storage is what it was |
| ChatInvite.TLChatInvitePeek.SetChat | app/service/biz/chat/chat/codec_schema.tl.pb.go:585 | after the call the storage's `chat` is the given value, and every other field of the storage is what it was |
| ChatInvite.TLChatInvitePeek.SetExpires | app/service/biz/chat/chat/codec_schema.tl.pb.go:588 | after the call the storage's `expires` is the given value, and every other field of the storage is what it was |
| ChatInvite.WritesThroughViewsAreShared | app/service/biz/chat/chat/codec_schema.tl.pb.go:331-583 | storage handed from one view to another keeps the write: a title set through the chatInvite view is seen by a chatInvitePeek view made over the storage handed back, expires set through the peek view likewise, and nothing else changes |
| ChatInvite.EncodeChatInviteAlready | app/service/biz/chat/chat/codec_schema.tl.pb.go:378-400 | output exactly when the layer's class id is the variant's tag, and then it starts with that tag |
| ChatInvite.DecodeChatInviteAlready | app/service/biz/chat/chat/codec_schema.tl.pb.go:406-423 | a storage constructor that is not the tag gives "invalid constructor" and changes nothing; otherwise only chat is set |
| ChatInvite.ChatInviteFlagBits | app/service/biz/chat/chat/codec_schema.tl.pb.go:476-495 | chatInvite's flags have bit 6 iff request_needed, bit 5 iff about present, bit 4 iff participants present, and no other bit |
| ChatInvite.EncodeChatInvite | app/service/biz/chat/chat/codec_schema.tl.pb.go:471-524 | output only for the variant's tag, starting with it; about and participants add a token each only when present |
| ChatInvite.DecodeChatInvite | app/service/biz/chat/chat/codec_schema.tl.pb.go:530-560 | a mismatched constructor gives "invalid constructor" and changes nothing; otherwise only chatInvite's fields change, photo is set, a true request_needed or a present about is never cleared, and present participants stay present unless the cursor faulted |
| ChatInvite.MissingParticipantsBecomeAbsent | app/service/biz/chat/chat/codec_schema.tl.pb.go:548-551 | when bit 4 announces participants that the input lacks, the failed `VectorLong` read (nil) leaves participants absent, even over storage that held some, and the decode reports the fault |
| ChatInvite.EncodeChatInvitePeek | app/service/biz/chat/chat/codec_schema.tl.pb.go:595-618 | output exactly when the layer's class id is the variant's tag, and then it starts with that tag |
| ChatInvite.DecodeChatInvitePeek | app/service/biz/chat/chat/codec_schema.tl.pb.go:624-642 | a mismatched constructor gives "invalid constructor"; otherwise only chat and expires change |
| ChatInvite.EncodeChatInviteExt | app/service/biz/chat/chat/codec_schema.tl.pb.go:259-288 | an unresolved predicate writes nothing and leaves the record unchanged; a resolved one is cached in the record, and output exists exactly when the layer maps the predicate to its own tag, which then leads the output |
| ChatInvite.DecodeChatInviteExt | app/service/biz/chat/chat/codec_schema.tl.pb.go:294-311 | the read tag is always stored; one of the three tags sets the matching predicate; any other tag gives "unknown constructor" after the tag is consumed |
| ChatInvite.DecodeAcceptsExactlyVariantTags | app/service/biz/chat/chat/codec_schema.tl.pb.go:294-311 | decoding reports the tag as unknown iff it is not one of 0xa40e7d5e, 0xdb75d1a7, 0xace3e26e |
| ChatInvite.ChatInviteFieldsRoundTrip | app/service/biz/chat/chat/codec_schema.tl.pb.go:498-556 | the chatInvite fields after the flags word read back title, about, photo, participants_count, participants and request_needed |
| ChatInvite.ChatInviteRoundTrip | app/service/biz/chat/chat/codec_schema.tl.pb.go:471-560 | a chatInvite view decodes its own encoding back into a fresh view: all six fields restored, no error, cursor right after |
| ChatInvite.ChatInviteExtRoundTrip | app/service/biz/chat/chat/codec_schema.tl.pb.go:259-311 | for each of the three variants: decoding the supertype's encoding into empty storage gives the record back with its predicate resolved, no error |
| ChatInvite.ReusedRecordKeepsRequestNeeded | app/service/biz/chat/chat/codec_schema.tl.pb.go:530-560 | decoding a chatInvite without request_needed into storage that has it set leaves it true |
| Imported.ToView | app/service/biz/chat/chat/codec_schema.tl.pb.go:709-726 | the view holds the storage with its predicate stamped |
| Imported.ToStorage | app/service/biz/chat/chat/codec_schema.tl.pb.go:728-731 | the storage handed back is the view's, predicate stamped |
| Imported.TLChatInviteImported.SetChat | app/service/biz/chat/chat/codec_schema.tl.pb.go:734 | after the call the storage's `chat` is the given value, and every other field of the storage is what it was |
| Imported.TLChatInviteImported.SetRequesters | app/service/biz/chat/chat/codec_schema.tl.pb.go:737 | after the call the storage's `requesters` is the given value, and every other field of the storage is what it was |
| Imported.ImportedFlagBits | app/service/biz/chat/chat/codec_schema.tl.pb.go:749-760 | bit 0 is set iff requesters are present, and no other bit |
| Imported.EncodeView | app/service/biz/chat/chat/codec_schema.tl.pb.go:744-784 | nothing for a foreign tag; otherwise the tag leads, and only the nested requesters' cached predicate changes |
| Imported.DecodeView | app/service/biz/chat/chat/codec_schema.tl.pb.go:790-814 | a mismatched constructor gives "invalid constructor"; otherwise chat is set and present requesters stay present |
| Imported.Encode | app/service/biz/chat/chat/codec_schema.tl.pb.go:655-678 | an unresolved predicate writes nothing and changes nothing; otherwise the predicate is cached and output exists iff the layer maps it to the type's tag |
| Imported.Decode | app/service/biz/chat/chat/codec_schema.tl.pb.go:684-695 | the read tag is stored; the type's tag decodes the view with the predicate set, and any other tag gives "unknown constructor" |
| Imported.RoundTrip | app/service/biz/chat/chat/codec_schema.tl.pb.go:655-814 | when the requesters are absent, or resolve to recentChatInviteRequesters under a layer that gives it its tag, decoding the encoding into empty storage restores chat and the nested requesters, no error |
| Imported.NestedUnknownTagIsSwallowed | app/service/biz/chat/chat/codec_schema.tl.pb.go:800-804 | an unknown tag in the nested requesters is not reported: the outer decode succeeds with a requesters record that holds only that tag |
| Imported.UnwritableRequestersMisread | app/service/biz/chat/chat/codec_schema.tl.pb.go:748-805 | requesters that cannot be written still set flag bit 0 and write nothing after the chat, so the decoder takes the next word as their tag and reports success with a record other than the one written |
| Requesters.ToView | app/service/biz/chat/chat/codec_schema.tl.pb.go:881-898 | the view holds the storage with its predicate stamped |
| Requesters.ToStorage | app/service/biz/chat/chat/codec_schema.tl.pb.go:900-903 | the storage handed back is the view's, predicate stamped |
| Requesters.TLRecentChatInviteRequesters.SetRequestsPending | app/service/biz/chat/chat/codec_schema.tl.pb.go:905 | after the call the storage's `requestsPending` is the given value, and every other field of the storage is what it was |
| Requesters.TLRecentChatInviteRequesters.SetRecentRequesters | app/service/biz/chat/chat/codec_schema.tl.pb.go:908 | after the call the storage's `recentRequesters` is the given value, and every other field of the storage is what it was |
| Requesters.EncodeView | app/service/biz/chat/chat/codec_schema.tl.pb.go:915-940 | output exactly for the type's tag: the tag and two fields |
| Requesters.DecodeView | app/service/biz/chat/chat/codec_schema.tl.pb.go:946-962 | a mismatched constructor gives "invalid constructor"; otherwise predicate and constructor are kept |
| Requesters.Encode | app/service/biz/chat/chat/codec_schema.tl.pb.go:827-850 | an unresolved predicate writes nothing and changes nothing; otherwise output exists iff the layer maps the predicate to the type's tag |
| Requesters.Decode | app/service/biz/chat/chat/codec_schema.tl.pb.go:856-867 | the read tag is stored; any tag but the type's gives "unknown constructor" |
| Requesters.RoundTrip | app/service/biz/chat/chat/codec_schema.tl.pb.go:827-962 | decoding the encoding into any record restores requests_pending and recent_requesters, no error |
| UserChatIds.ToView | app/service/biz/chat/chat/codec_schema.tl.pb.go:1029-1046 | the view holds the storage with its predicate stamped |
| UserChatIds.ToStorage | app/service/biz/chat/chat/codec_schema.tl.pb.go:1048-1051 | the storage handed back is the view's, predicate stamped |
| UserChatIds.TLUserChatIdList.SetUserId | app/service/biz/chat/chat/codec_schema.tl.pb.go:1053 | after the call the storage's `userId` is the given value, and every other field of the storage is what it was |
| UserChatIds.TLUserChatIdList.SetChatIdList | app/service/biz/chat/chat/codec_schema.tl.pb.go:1056 | after the call the storage's `chatIdList` is the given value, and every other field of the storage is what it was |
| UserChatIds.EncodeView | app/service/biz/chat/chat/codec_schema.tl.pb.go:1063-1088 | output exactly for the type's tag: the tag and two fields |
| UserChatIds.DecodeView | app/service/biz/chat/chat/codec_schema.tl.pb.go:1094-1110 | a mismatched constructor gives "invalid constructor"; otherwise predicate and constructor are kept |
| UserChatIds.Encode | app/service/biz/chat/chat/codec_schema.tl.pb.go:975-998 | an unresolved predicate writes nothing and changes nothing; otherwise output exists iff the layer maps the predicate to the type's tag |
| UserChatIds.Decode | app/service/biz/chat/chat/codec_schema.tl.pb.go:1004-1015 | the read tag is stored; any tag but the type's gives "unknown constructor" |
| UserChatIds.RoundTrip | app/service/biz/chat/chat/codec_schema.tl.pb.go:975-1110 | decoding the encoding into any record restores user_id and chat_id_list, no error |
| Vectors.EncodeObjVector | app/service/biz/chat/chat/codec_schema.tl.pb.go:3073-3082 | marker, then the element count as a 32-bit word (low 32 bits), then each element in order |
| Vectors.DecodeObjVector | app/service/biz/chat/chat/codec_schema.tl.pb.go:3084-3094 | a negative count is an error and keeps the old vector; otherwise exactly count elements are read |
| Vectors.ReadObjsRoundTrip | app/service/biz/chat/chat/codec_schema.tl.pb.go:3087-3091 | reading n elements back from n written ones gives them in order |
| Vectors.ObjVectorRoundTrip | app/service/biz/chat/chat/codec_schema.tl.pb.go:3073-3094 | a vector of fewer than 2^31 records decodes to itself, in order, with no error, and an empty one to an empty one |
| Vectors.ObjVectorCountWraps | app/service/biz/chat/chat/codec_schema.tl.pb.go:3073-3094 | a vector of 2^31 to 2^32 - 1 records writes a negative count, and reading it back fails |
| Vectors.MarkerIsNotChecked | app/service/biz/chat/chat/codec_schema.tl.pb.go:3084-3086 | any leading word is accepted as the marker: decoding does not depend on it |
| Vectors.EncodeLongVector | app/service/biz/chat/chat/codec_schema.tl.pb.go:3108-3113 | the long vector is written as one token, which decodes back to exactly its data with no error |
| Vectors.DecodeLongVector | app/service/biz/chat/chat/codec_schema.tl.pb.go:3115-3119 | returns the cursor's error; a faulted read yields an empty list |
| Vectors.LongVectorRoundTrip | app/service/biz/chat/chat/codec_schema.tl.pb.go:3108-3119 | a long vector decodes to its data, no error |
| Vectors.EncodeUserChatIdVector | app/service/biz/chat/chat/codec_schema.tl.pb.go:3133-3142 | marker, then the element count as a 32-bit word (low 32 bits) |
| Vectors.EncodeListsSelf | app/service/biz/chat/chat/codec_schema.tl.pb.go:3137-3139 | after encoding, element i is what encoding element i on its own leaves behind (its predicate cached) |
| Vectors.EncodeListsConcat | app/service/biz/chat/chat/codec_schema.tl.pb.go:3137-3139 | the elements are written one after another, each exactly as its own encoding |
| Vectors.DecodeUserChatIdVector | app/service/biz/chat/chat/codec_schema.tl.pb.go:3144-3154 | a negative count is an error and keeps the old list; otherwise exactly count elements are read |
| Vectors.DecodeConcat | app/service/biz/chat/chat/codec_schema.tl.pb.go:3147-3150 | n fresh-record decodes over n pieces that each decode on their own read the pieces' records back, in order |
| Vectors.UserChatIdListsRoundTrip | app/service/biz/chat/chat/codec_schema.tl.pb.go:3136-3151 | when every element resolves to userChatIdList and the layer gives it its tag, elements written one after another decode in order, each restored |
| Vectors.UserChatIdVectorRoundTrip | app/service/biz/chat/chat/codec_schema.tl.pb.go:3133-3154 | a vector of fewer than 2^31 elements, each resolving to userChatIdList under a layer that gives it its tag, decodes to its elements, in order, with no error |
| Vectors.UnwritableElementFaults | app/service/biz/chat/chat/codec_schema.tl.pb.go:3133-3154 | an element that cannot be written is counted but writes nothing, so a one-element vector of it is the marker and the count alone and reads back with a buffer fault |
| UserDataCache.FormatInt | app/service/biz/user/internal/dao/cache_user_data.go:37-39 | `%d` text starts with '-' exactly for negative numbers and is never empty |
| UserDataCache.ParseInt | app/service/biz/user/internal/dao/cache_user_data.go:43 | `strconv.ParseInt(s, 10, 64)` with the error dropped: the empty string, or a sign alone, gives 0 |
| UserDataCache.ParseIntSyntaxError | app/service/biz/user/internal/dao/cache_user_data.go:43 | a character other than a digit after the optional sign gives 0, unless the digits before it already overflowed |
| UserDataCache.ParseIntClamps | app/service/biz/user/internal/dao/cache_user_data.go:43 | a magnitude of 2^63 or more, of any length, gives MaxInt64 unsigned or with a plus sign and MinInt64 with a minus sign |
| UserDataCache.FormatParseRoundTrip | app/service/biz/user/internal/dao/cache_user_data.go:37-45 | parsing `%d` text gives back every int64, the minimum included |
| UserDataCache.GenCacheUserDataCacheKey | app/service/biz/user/internal/dao/cache_user_data.go:37-39 | every generated key starts with "user_data.1#" |
| UserDataCache.ParseCacheUserDataCacheKey | app/service/biz/user/internal/dao/cache_user_data.go:41-48 | a key without the "user_data.1#" head, or with nothing after it, parses to 0 |
| UserDataCache.IsCacheUserDataCacheKey | app/service/biz/user/internal/dao/cache_user_data.go:50-52 | every key the parser accepts is recognised |
| UserDataCache.KeyRoundTrip | app/service/biz/user/internal/dao/cache_user_data.go:37-48 | parse(gen(id)) == id for every int64 id |
| UserDataCache.GeneratedKeysAreDistinctKeys | app/service/biz/user/internal/dao/cache_user_data.go:37-52 | every generated key is recognised, and two ids share a key iff they are equal |
| UserDataCache.RecognisedKeyWithoutId | app/service/biz/user/internal/dao/cache_user_data.go:41-52 | "user_data.1" is recognised as a cache key although it lacks the '#' and parses to 0 |
| UserDataCache.MakeEmojiStatus | app/service/biz/user/internal/dao/cache_user_data.go:117-131 | no status iff the document id is 0; a status carries the given document id |
| UserDataCache.MakeEmojiStatusDropsExpiry | app/service/biz/user/internal/dao/cache_user_data.go:121-130 | as written: a positive until gives the plain status, whose expiry reads 0; any other until gives the "until" shape carrying it, so every "until" status has until <= 0 |
| UserDataCache.MakeEmojiStatusFixed | app/service/biz/user/internal/dao/cache_user_data.go:117-131 | the corrected selector: no status iff the document id is 0, and the document id is kept |
| UserDataCache.EmojiStatusFixedRoundTrip | app/service/biz/user/internal/dao/cache_user_data.go:117-131 | the corrected selector keeps a positive until as the expiry, and inverts reading a status back into its two columns |
| UserDataCache.NewCacheUserData | app/service/biz/user/internal/dao/cache_user_data.go:61-68 | nil user data and three empty, non-nil lists |
| UserDataCache.GetContactIdList | app/service/biz/user/internal/dao/cache_user_data.go:70-75 | nil on a nil receiver, the field otherwise |
| UserDataCache.GetReverseContactIdList | app/service/biz/user/internal/dao/cache_user_data.go:77-82 | nil on a nil receiver, the field otherwise |
| UserDataCache.GetUserData | app/service/biz/user/internal/dao/cache_user_data.go:84-89 | nil on a nil receiver, the field otherwise |
| UserDataCache.NewRecordAgainstNil | app/service/biz/user/internal/dao/cache_user_data.go:61-89 | a new record and a nil one both read nil user data, but the new record's lists are empty slices where the nil record's are nil |

## Left out

- The byte layout of the cursor library (`mtproto.EncodeBuf` / `DecodeBuf`) is not part of this model. That means widths, padding of strings and the `VectorLong` byte format. One token stands for one primitive write, and a fault stands for any misparse.
- External nested types (`MutableChat`, `Photo`, `Bool`, `ChatBannedRights`, `ExportedChatInvite`, `ChatAdminWithInvites`, `ChatInviteImporter`) are one opaque token each. Their own codecs are not part of this model, so their round trip is the token's.
- The layer → class id map (`GetClazzID`) and the tag → name map (`clazzIdNameRegisters2`) are defined elsewhere. They are parameters (`ClassOf`, `NameOf`).
- `DebugString` is left out: it is JSON through a foreign library.
- `CalcByteSize` is left out: it is a stub that returns 0.
- The data-access functions of `cache_user_data.go` are left out. That means `GetCacheUserData`, `GetNoCacheUserData`, `makeUserDataByDO` and the rest of the file below line 131: they are SQL and cache I/O, an RPC to the media service, and `mr.FinishVoid` concurrency.
- The JSON tags of `CacheUserData` are left out. The model keeps nil and empty lists apart, which is what those tags make visible.
- Views are values, not pointers. In Go every view of a record points at one shared storage, so a write through one live view is seen at once by every other. Here a view carries its storage, and predicate stamping and setter effects are passed back through `Encoded.self` / `Decoded.value` and the `*ToExt` functions.
- ChatInvite.WritesThroughViewsAreShared: states only that storage handed from one view to another keeps the write, because views are values (above). A write through one live view is not seen by another live view.
- ChatMethods.Encode: requires every unconditionally written nested object (for example the `Photo` of editChatPhoto or a `MutableChat`) to be present. Go writes those without a nil check and panics on nil, and a panic is not modelled.
- ChatInvite.EncodeChatInviteExt: requires the nested object the resolved variant writes (chat or photo) to be present, because Go panics on nil there. The panic is not modelled.
- ChatInvite.EncodeChatInviteAlready: requires chat to be present under the variant's own tag, because Go panics on a nil chat. The panic is not modelled.
- ChatInvite.EncodeChatInvite: requires photo to be present under the variant's own tag, because Go panics on a nil photo. The panic is not modelled.
- ChatInvite.EncodeChatInvitePeek: requires chat to be present under the variant's own tag, because Go panics on a nil chat. The panic is not modelled.
- Imported.EncodeView: requires chat to be present under the type's own tag, because Go panics on a nil chat. The panic is not modelled.
- Imported.Encode: requires chat to be present when the record encodes under its own tag, because Go panics on a nil chat. The panic is not modelled.
- Registry.UserChatIdListDispatchRoundTrip: the dispatch round trip through the registry is proved for the method records and for userChatIdList. The other five data constructors have their round trips stated directly on their codecs, not through the registry.
- Vectors.ObjVectorRoundTrip: holds only for fewer than 2^31 elements, because the source writes the count as an `int32`.
- Vectors.UserChatIdVectorRoundTrip: holds only for fewer than 2^31 elements, because the source writes the count as an `int32`.
- Vectors.UserChatIdVectorRoundTrip: holds only when every element resolves to userChatIdList and the layer gives that predicate its tag. Otherwise the element is counted but writes nothing, and the read-back faults or misreads (Vectors.UnwritableElementFaults).
- Vectors.UserChatIdListsRoundTrip: holds only when every element resolves to userChatIdList and the layer gives that predicate its tag, for the same reason.
- Imported.RoundTrip: holds only when the requesters are absent or writable: resolving to recentChatInviteRequesters under a layer that gives it its tag. Otherwise bit 0 is set with no payload, and the decoder misreads the next word (Imported.UnwritableRequestersMisread).
- ChatMethods.RoundTrip: for getExportedChatInvites it requires the two offsets to agree, because the source's round trip fails otherwise (see Findings).
- Go's `strconv` is modelled from its documented base-10, 64-bit behaviour, not from its source. That behaviour is:
  - one optional sign;
  - digits only, so an underscore is a syntax error in base 10;
  - a syntax error gives 0;
  - a range error gives the nearest int64 bound.
- Go strings are bytes, and here they are `seq<char>`. Keys are ASCII, so the two agree.

## Findings

| source | as written | input that shows it | evidently intended | confidence | as-written member | corrected member |
|---|---|---|---|---|---|---|
| app/service/biz/chat/chat/codec_schema.tl.pb.go:2256-2267, 2306-2314 | `getExportedChatInvites` sets flag bit 2 for offset_date and for offset_link, and decode reads both whenever bit 2 is set | offset_date = 5, offset_link absent: bit 2 is set, one int is written, and decode then reads that int as the date and the limit word as the link string, which faults | one bit for the pair, so the two offsets are sent together (a lone offset is sent with its partner at its zero value), and decode never reads a field that was not written | high, not executed | ChatMethods.LoneOffsetFaults | ChatMethods.FixedRoundTrip |
| app/service/biz/user/internal/dao/cache_user_data.go:121-130 | `makeEmojiStatus` returns the plain emojiStatus when until > 0 and emojiStatusUntil carrying until otherwise | documentId = 1, until = 1700000000 gives emojiStatus(1), and the expiry is lost; until = 0 gives emojiStatusUntil(1, 0) | a positive until gives emojiStatusUntil(documentId, until), and no expiry gives the plain emojiStatus | high, not executed | UserDataCache.MakeEmojiStatusDropsExpiry | UserDataCache.EmojiStatusFixedRoundTrip |
