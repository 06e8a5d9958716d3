# Verified models of the telemetry agent

This project models four parts of the agent and its command line client and proves what they promise:

- the protocol-buffer codecs in `src/grpc/lib-protos`: the generated parsers with their tag prediction and gotos, the
  two-phase writers with cached sizes, merging, presence bits, unknown fields and packed lists, for FirewallStats,
  Component, KeyValue, OpenConfigData, SubscriptionRequest, DataEncodingReply and LspStatsRecord;
- the INI parser and its reader in `src/grpc/lib-inih`;
- the client registry, the life of a subscription, and the link aggregation counters in `src/grpc/client`;
- the flattening of firewall statistics in `src/grpc/lib-oc`.

`dafny verify dfyconfig.toml` checks everything.

## How it is laid out

The codecs stand on a small stack. `Wire` has varints, fixed-width and signed integers, as the Protocol Buffers Encoding
guide describes them ("Base 128 Varints", "More Integer Types"). `Records` has one tagged field, written and read back.
`PlainLoop` is the reference parser: read a tag, read the field, hand it to the message, repeat; a message type is given by
its handler. Its laws hold for every handler: parsing written records is folding them, parsing a concatenation is parsing
one message into the other, and a handler that commutes with a merge turns concatenation into that merge. `CodedStream` is
the input stream as an object with a position, a pushed limit and a recursion budget; its predictions may answer "no"
although the tag is there. `PredictedLoop` relates one turn of a predicting parser to the plain loop. Each goto parser is a
machine of labels and blocks: a block is the code from one label to the next jump, and at every label the plain loop, given
the tag consumed there, would go on to the same outcome. `Utf8` follows sections 3 and 4 of RFC 3629.

Messages come twice. As values (`TelemetryData`, `TelemetryRequest`, `InventoryData`, `FirewallData`, `FirewallMerge`) they
carry the laws, with `ExplicitZeros` saying exactly where one of them ends; as classes (`KeyValueClass`,
`OpenConfigDataClass`, `RequestParts`, `InputClass`, `RequestClass`, `InventoryKeyVal`, `ComponentClass`, `PolicerClass`,
`FirewallClass`, `LspStats`, `DataEncoding`) they have the fields, caches and bits that the generated code changes in place,
and each method says which function of the old value the new one is. `CodedOutput` is where they write to, `Proto3Writer`
and `Proto2` how they write a scalar field, and `CachedSizes` what nested messages look like on the wire when the sizes in
front of them come from caches that may be wrong. `LastFields` says what a list of fields holds, `FirewallFields` and
`MessageFields` that each parsed message holds just that, and `FieldOrder` in which order messages are written.

`Ini` says what a line and a text mean without any buffer; `IniParser` is the C code over its three buffers and computes the
same; `IniComments` says what comments and whitespace change, which is nothing, and which lines are malformed;
`IniPrinter` prints configurations and says exactly what survives; `IniReader` is the case-folded map.

`Registry` is a transition system whose steps are the atomic accesses of the client's threads, with the objects behind them.
`RegistryRuns` says what has become of a client and of a thread in terms of the run, and `RegistryProgram` runs the objects
along with the steps.
`Lag` counts a message twice, in place and as a function, and `OcFirewall` flattens and reads back.

## Findings

- The law "parsing a concatenation is merging" is not true of all proto3 bytes: a zero that stands on the wire overwrites
  when it is parsed and not when it is merged (`TelemetryData.ExplicitZeroIsNotMerged`). It holds for two complete byte
  strings exactly if no scalar field that the second leaves at an explicit zero is set in the first
  (`ExplicitZeros.DataConcatIff`, `KeyValueConcatIff`, and `RequestConcatIff` through a singular sub-message); the serialiser
  writes no such zeros. For the proto2 messages and the packed list the law holds for all byte strings.
- A leading byte order mark is not always transparent: a text that begins with a mark itself changes meaning, and the mark
  takes three bytes of the line buffer, which can cut the first line in two (`Ini.BomMayBreakALine`). `Ini.BomShortensIff`
  says for every text exactly when those three bytes are all that it changes, and `Ini.CallsSurviveIff` when the calls stay
  the same all the same.
- The destructor of a client removes the registry entry under its name even if another client has taken it over. Entries
  never dangle, but a live client can become impossible to find (`Registry.AClientCanBeLost`); that happens exactly in the
  runs in which a creation overwrites an entry (`Registry.FindableIff`). `handle_subscribe_multiple` resets its counter while
  threads still run, so thread names can collide.
- `ini.h` speaks of comments that start with `;`; the code also takes a line that starts with `#` as a comment, and only `;`
  starts an inline comment. The model follows the code.
- A comment needs a whitespace character in front of it, and the whitespace behind the separator is skipped before comments
  are looked for; so behind an empty value a comment is taken as the value (`IniComments.CommentBehindNothing`).
- `INIReader` looks up the text `section=name`, so a look-up whose name holds `=` asks for another section and name
  (`IniReader.Asked`); names that the parser emits never hold one.
- A section line may hold anything but `]` and an inline comment, but only its first 49 characters are kept; a name with
  continuation lines must be shorter than 50 characters, a name without them need not.

## Model

| member | source | states |
|---|---|---|
| `FirewallClass.FirewallStatsMessage.MergePartialFromCodedStream` | src/grpc/lib-protos/firewall.pb.cc:653-779 | for every byte string and every pattern of prediction answers the goto parser has the verdict, message, leftover input, end-of-input flag and recursion budget of the loop that reads a tag, dispatches and repeats; every pass consumes input or leaves |
| `FirewallClass.FirewallStatsMessage.BlockLoopMemoryUsage` | src/grpc/lib-protos/firewall.pb.cc:699-708 | the jump into the next loop keeps the one charge of the recursion depth; leaving the loops gives it back |
| `FirewallClass.FirewallStatsMessage.BlockLoopHierarchical` | src/grpc/lib-protos/firewall.pb.cc:747-757 | the last loop of sub-messages: back to itself, to the end, or to the top with the depth restored |
| `FirewallClass.FirewallStatsMessage.MergeFrom` | src/grpc/lib-protos/firewall.pb.cc:956-974 | the object becomes the merge of its old value and the other message |
| `FirewallClass.FirewallStatsMessage.CopyFrom` | src/grpc/lib-protos/firewall.pb.cc:982-986 | a copy of the other message, also of itself |
| `PolicerClass.PolicerStatsMessage.MergePartialFromCodedStream` | src/grpc/lib-protos/firewall.pb.cc:2144-2233 | the goto parser of the policer inside it: its sub-message is read through the same stream, with predictions of its own, and still every outcome is that of the plain loop |
| `PolicerClass.PolicerStatsMessage.ReadExtended` | src/grpc/lib-protos/firewall.pb.cc:2199-2208 | the singular sub-message is parsed into the one already there, within its limit and one level deeper; the level is given back |
| `PolicerClass.PolicerStatsMessage.MergeFrom` | src/grpc/lib-protos/firewall.pb.cc:2365-2385 | the merge, the sub-message merged into the one already there |
| `PolicerClass.ReadPolicer` | src/grpc/lib-protos/firewall.pb.cc:731-733 | a new policer and the parse into it, whose payload has to be used up |
| `FirewallMerge.PolicerConcatIsMerge` | src/grpc/lib-protos/firewall.pb.cc:2365-2385 | for all byte strings: parsing two complete policers in a row is merging the second into the first, the singular sub-message recursively |
| `FirewallMerge.FirewallConcatIsMerge` | src/grpc/lib-protos/firewall.pb.cc:956-974 | the same for FirewallStats, whose lists append |
| `FirewallMerge.SubCommutes` | src/grpc/lib-protos/firewall.pb.cc:2199-2208 | the sub-message is parsed into the one already there, which is merging what the bytes hold into it, whether they parse or not |
| `ComponentClass.ComponentMessage.MergePartialFromCodedStream` | src/grpc/lib-protos/inventory.pb.cc:575-740 | prediction soundness, termination and depth balance for Component, enum diversion and unknown fields included |
| `ComponentClass.ComponentMessage.ReadType` | src/grpc/lib-protos/inventory.pb.cc:649-666 | a known enum number sets the field, any other becomes the unknown varint that the plain loop keeps |
| `ComponentClass.ComponentMessage.BlockLoopProperties` | src/grpc/lib-protos/inventory.pb.cc:668-684 | the goto from one loop of sub-messages into the next shares one recursion charge |
| `ComponentClass.ComponentMessage.KeepUnknown` | src/grpc/lib-protos/inventory.pb.cc:718-733 | a field that is not dispatched on, a wrong wire type for instance, becomes an unknown field |
| `ComponentClass.ComponentMessage.ByteSize` | src/grpc/lib-protos/inventory.pb.cc:883-953 | fills the size caches of both lists of sub-messages, even if they shared objects, and returns the length of the serialised message |
| `ComponentClass.ComponentMessage.SerializeWithCachedSizes` | src/grpc/lib-protos/inventory.pb.cc:742-808 | writes each sub-message behind the size its object has cached, unknown fields last |
| `ComponentClass.WrittenIffFresh` | src/grpc/lib-protos/inventory.pb.cc:742-808 | the output is the serialised message exactly if every cached size is right, in both lists |
| `ComponentClass.ComponentMessage.SerializeToStream` | src/grpc/lib-protos/inventory.pb.cc:742-953 | sizes first, then the writer: the serialised message |
| `ComponentClass.ComponentMessage.MergeFrom` | src/grpc/lib-protos/inventory.pb.cc:967-994 | the object becomes the merge of its old value and the other message |
| `InventoryKeyVal.KeyValMessage.ByteSize` | src/grpc/lib-protos/inventory.pb.cc:1580-1614 | the nested message caches its size, which is the length of its bytes |
| `InventoryKeyVal.KeyValMessage.SerializeWithCachedSizes` | src/grpc/lib-protos/inventory.pb.cc:1507-1540 | the nested message is appended, unknown fields last |
| `InventoryKeyVal.SizeOfKeyVals` | src/grpc/lib-protos/inventory.pb.cc:921-927 | the sizes of a repeated field, each cached in its object |
| `InventoryKeyVal.ReadKeyVal` | src/grpc/lib-protos/inventory.pb.cc:673-675 | a nested object is parsed within its own limit and must use up its payload |
| `InventoryData.ReencodeLosesNothing` | src/grpc/lib-protos/inventory.pb.cc:575-808 | for every byte string that parses to its end, writing the message and parsing it again gives the same message |
| `InventoryData.ComponentConcatIsMerge` | src/grpc/lib-protos/inventory.pb.cc:967-994 | for all byte strings: parsing two complete messages in a row is merging the second into the first |
| `InventoryData.ComponentFoldKeeps` | src/grpc/lib-protos/inventory.pb.cc:649-735 | what parsing can produce: valid enum values, unknown fields that no known tag would claim, sizes that can be written again |
| `InventoryData.ComponentReparsed` | src/grpc/lib-protos/inventory.pb.cc:742-808 | every such message survives writing and parsing |
| `InventoryData.KeyValReparsed` | src/grpc/lib-protos/inventory.pb.cc:1507-1540 | the same for the nested InventoryKeyVal |
| `InventoryData.KeyValParsed` | src/grpc/lib-protos/inventory.pb.cc:1427-1505 | a parsed InventoryKeyVal can be written again and is then no longer than the bytes it came from |
| `TelemetryData.DataRoundTrip` | src/grpc/lib-protos/agent.pb.cc:3084-3275 | parsing the bytes of any OpenConfigData into a cleared message gives it back and uses all bytes, exactly if its strings are UTF-8 and the nesting budget suffices; otherwise the parse fails |
| `TelemetryData.DataWhole` | src/grpc/lib-protos/agent.pb.cc:3404-3427 | parsing the bytes of y into any message merges y into it, under the same condition |
| `TelemetryData.DataConcatIsMerge` | src/grpc/lib-protos/agent.pb.cc:3404-3427 | bytes from the serialiser never hold an explicit zero: any complete message followed by the bytes of y parses to the merge |
| `TelemetryData.DataConcatOfWritten` | src/grpc/lib-protos/agent.pb.cc:3225-3275 | parsing serialise(x) followed by serialise(y) is merging y into x |
| `ExplicitZeros.DataConcatIff` | src/grpc/lib-protos/agent.pb.cc:3404-3427 | for every two complete byte strings: parsing the concatenation is merging exactly if no scalar field that the second leaves at an explicit zero, or explicitly empty, is set in the first |
| `ExplicitZeros.KeyValueConcatIff` | src/grpc/lib-protos/agent.pb.cc:4128-4167 | the same for KeyValue, where only the key can be explicitly empty: a oneof member is set even when it is zero |
| `ExplicitZeros.RequestConcatIff` | src/grpc/lib-protos/agent.pb.cc:883-892 | the same for SubscriptionRequest, through the sub-messages: only a limit of the singular configuration can be lost |
| `TelemetryData.ExplicitZeroIsNotMerged` | src/grpc/lib-protos/agent.pb.cc:3411-3413 | an input for which it is not: a zero put on the wire explicitly overwrites when parsed and not when merged |
| `TelemetryData.KeyValueWhole` | src/grpc/lib-protos/agent.pb.cc:3775-3987 | parsing the bytes of any KeyValue merges it, whichever member of the oneof is set, none and explicit zeros included; it fails exactly on text that is no UTF-8 |
| `TelemetryData.KeyValueFold` | src/grpc/lib-protos/agent.pb.cc:4128-4167 | field by field, folding the records of y is MergeFrom: the later oneof wins, an empty key does not overwrite |
| `TelemetryData.KvFold` | src/grpc/lib-protos/agent.pb.cc:3406-3406 | the repeated field appends, in order |
| `TelemetryRequest.RequestRoundTrip` | src/grpc/lib-protos/agent.pb.cc:715-838 | the bytes that both writers produce once the caches are fresh parse back to the request, in the plain loop and so in the goto parser, exactly for acceptable strings and nesting |
| `TelemetryRequest.RequestConcatIsMerge` | src/grpc/lib-protos/agent.pb.cc:883-892 | bytes from the serialiser: any complete request followed by the bytes of y parses to the merge, the singular sub-messages merged field by field |
| `TelemetryRequest.RequestWhole` | src/grpc/lib-protos/agent.pb.cc:883-892 | parsing into a message that already holds sub-messages merges into those |
| `TelemetryRequest.InputWhole` | src/grpc/lib-protos/agent.pb.cc:1210-1213 | SubscriptionInput: collectors append |
| `TelemetryRequest.CollectorWhole` | src/grpc/lib-protos/agent.pb.cc:1500-1509 | Collector: non-empty address and non-zero port overwrite |
| `TelemetryRequest.PathWhole` | src/grpc/lib-protos/agent.pb.cc:1951-1970 | Path: five scalar fields, zeros do not overwrite |
| `TelemetryRequest.ConfigWhole` | src/grpc/lib-protos/agent.pb.cc:2355-2363 | SubscriptionAdditionalConfig: negative values travel sign-extended and come back |
| `RequestClass.SubscriptionRequestMessage.MergeFrom` | src/grpc/lib-protos/agent.pb.cc:883-892 | the merge: a missing sub-message is created, one that is there is merged in place, the other request keeps its own |
| `RequestClass.SubscriptionRequestMessage.MutableInput` | src/grpc/lib-protos/agent.pb.cc:946-953 | the sub-message there is, or a new empty one |
| `RequestClass.SubscriptionRequestMessage.Clear` | src/grpc/lib-protos/agent.pb.cc:707-713 | drops the sub-messages and the paths |
| `RequestClass.SubscriptionRequestMessage.CopyFrom` | src/grpc/lib-protos/agent.pb.cc:900-904 | a copy of the other message, also of itself |
| `RequestClass.WrittenIffFresh` | src/grpc/lib-protos/agent.pb.cc:788-838 | for any tree of cached sizes, right or wrong: what is written is the serialised request exactly if every cache in the tree is right, the input, its collectors, the paths and the configuration |
| `RequestClass.SubscriptionRequestMessage.ByteSize` | src/grpc/lib-protos/agent.pb.cc:840-869 | fills every cache of the tree with the right size and returns the length of the request, whose value does not change |
| `RequestClass.SubscriptionRequestMessage.SerializeWithCachedSizes` | src/grpc/lib-protos/agent.pb.cc:788-810 | writes each sub-message behind its cached size, whatever that is |
| `RequestClass.SubscriptionRequestMessage.SerializeWithCachedSizesToArray` | src/grpc/lib-protos/agent.pb.cc:812-838 | the same bytes into an array, nothing else touched |
| `RequestClass.SubscriptionRequestMessage.SerializeToStream` | src/grpc/lib-protos/agent.pb.cc:788-869 | sizes first, then the stream writer: the serialised request |
| `RequestClass.SubscriptionRequestMessage.SerializeToArray` | src/grpc/lib-protos/agent.pb.cc:812-869 | sizes first, then the array writer: an array of exactly the computed length holding the same bytes |
| `RequestClass.SubscriptionRequestMessage.MergePartialFromCodedStream` | src/grpc/lib-protos/agent.pb.cc:715-786 | prediction soundness and depth balance, with the singular sub-messages parsed into the objects that are there |
| `RequestClass.SubscriptionRequestMessage.ReadInput` | src/grpc/lib-protos/agent.pb.cc:727-733 | an input that occurs again is parsed into the one already there, which the request keeps |
| `RequestClass.SubscriptionRequestMessage.BlockLoopPathList` | src/grpc/lib-protos/agent.pb.cc:739-751 | the loop of paths charges the depth once and gives it back before the jump to the configuration |
| `InputClass.InputMessage.MergePartialFromCodedStream` | src/grpc/lib-protos/agent.pb.cc:1108-1153 | prediction soundness for the loop of collectors |
| `InputClass.InputMessage.ByteSize` | src/grpc/lib-protos/agent.pb.cc:1181-1197 | fills the caches of the collectors and its own |
| `InputClass.InputMessage.SerializeWithCachedSizes` | src/grpc/lib-protos/agent.pb.cc:1155-1165 | writes each collector behind its cached size |
| `InputClass.InputMessage.MergeFrom` | src/grpc/lib-protos/agent.pb.cc:1210-1213 | collectors append, as new objects |
| `RequestParts.CollectorMessage.ByteSize` | src/grpc/lib-protos/agent.pb.cc:1465-1486 | the computed and cached size is the length of the serialised collector |
| `RequestParts.PathMessage.ByteSize` | src/grpc/lib-protos/agent.pb.cc:1897-1936 | the same for a path with its five fields |
| `RequestParts.PathMessage.SerializeWithCachedSizes` | src/grpc/lib-protos/agent.pb.cc:1812-1851 | the stream grows by the serialised path |
| `RequestParts.PathMessage.SerializeWithCachedSizesToArray` | src/grpc/lib-protos/agent.pb.cc:1853-1895 | the same bytes into an array |
| `RequestParts.PathMessage.MergeFrom` | src/grpc/lib-protos/agent.pb.cc:1951-1970 | zeros, false and empty strings do not overwrite |
| `RequestParts.ConfigMessage.ByteSize` | src/grpc/lib-protos/agent.pb.cc:2320-2340 | a negative limit takes ten bytes |
| `RequestParts.ConfigMessage.MergeFrom` | src/grpc/lib-protos/agent.pb.cc:2355-2363 | limits that are not zero overwrite |
| `CachedSizes.ListInjective` | src/grpc/lib-protos/agent.pb.cc:1158-1162 | the cached sizes can be read off the bytes that were written with them, whatever follows |
| `RequestClass.BuildRequest` | src/grpc/client/AgentClient.cpp:106-129 | the request for a list of paths: the configuration is present even without limits |
| `RequestClass.ServerReadsRequest` | src/grpc/client/AgentClient.cpp:106-129 | whoever parses the bytes of that request gets exactly it, if the path names are UTF-8 |
| `KeyValueClass.KeyValueMessage.MergePartialFromCodedStream` | src/grpc/lib-protos/agent.pb.cc:3775-3930 | prediction soundness for KeyValue |
| `KeyValueClass.KeyValueMessage.ClearValue` | src/grpc/lib-protos/agent.pb.cc:3732-3764 | whatever member the case number names is unset, and the key stays |
| `KeyValueClass.KeyValueMessage.SetIntValue` | src/grpc/lib-protos/agent.pb.cc:4301-4308 | a setter: the case number is changed unless it is right already, and afterwards the shared storage reads back as exactly this member with this value |
| `KeyValueClass.KeyValueMessage.SetStrValue` | src/grpc/lib-protos/agent.pb.cc:4417-4425 | the same for a string member |
| `KeyValueClass.KeyValueMessage.SetValue` | src/grpc/lib-protos/agent.pb.cc:4272-4505 | whichever setter: the others are unset and the key stays |
| `KeyValueClass.KeyValueMessage.MergeFrom` | src/grpc/lib-protos/agent.pb.cc:4128-4167 | the object becomes the merge of its old value and the other message |
| `KeyValueClass.KeyValueMessage.CopyFrom` | src/grpc/lib-protos/agent.pb.cc:4175-4179 | a copy of the other message, also of itself |
| `KeyValueClass.KeyValueMessage.ByteSize` | src/grpc/lib-protos/agent.pb.cc:4050-4112 | the computed and cached size is the length of the serialised message |
| `KeyValueClass.KeyValueMessage.SerializeWithCachedSizes` | src/grpc/lib-protos/agent.pb.cc:3932-3987 | the stream grows by the serialised message |
| `KeyValueClass.KeyValueMessage.SerializeWithCachedSizesToArray` | src/grpc/lib-protos/agent.pb.cc:3989-4048 | the same bytes from a position of an array on, nothing else touched |
| `OpenConfigDataClass.WrittenIffFresh` | src/grpc/lib-protos/agent.pb.cc:3266-3275 | the writers output the serialised message exactly if every nested cached size is right: one stale cache spoils the bytes |
| `OpenConfigDataClass.OpenConfigDataMessage.ByteSize` | src/grpc/lib-protos/agent.pb.cc:3333-3390 | fills every nested cache with the right size and returns the length of the message |
| `OpenConfigDataClass.OpenConfigDataMessage.SerializeWithCachedSizes` | src/grpc/lib-protos/agent.pb.cc:3225-3275 | writes each nested message behind the size its object has cached |
| `OpenConfigDataClass.OpenConfigDataMessage.SerializeWithCachedSizesToArray` | src/grpc/lib-protos/agent.pb.cc:3277-3331 | the same bytes into an array |
| `OpenConfigDataClass.OpenConfigDataMessage.SerializeToStream` | src/grpc/lib-protos/agent.pb.cc:3225-3275 | sizes first, then the stream writer: the serialised message |
| `OpenConfigDataClass.OpenConfigDataMessage.SerializeToArray` | src/grpc/lib-protos/agent.pb.cc:3277-3331 | sizes first, then the array writer: an array of exactly the computed length holding the same bytes |
| `OpenConfigDataClass.OpenConfigDataMessage.MergeFrom` | src/grpc/lib-protos/agent.pb.cc:3404-3427 | the merge; the list grows by new objects, so the two messages share none |
| `OpenConfigDataClass.OpenConfigDataMessage.CopyFrom` | src/grpc/lib-protos/agent.pb.cc:3435-3439 | a copy of the other message, also of itself |
| `OpenConfigDataClass.OpenConfigDataMessage.MergePartialFromCodedStream` | src/grpc/lib-protos/agent.pb.cc:3084-3223 | prediction soundness for OpenConfigData with its nested objects |
| `OpenConfigDataClass.OpenConfigDataMessage.BlockLoopKv` | src/grpc/lib-protos/agent.pb.cc:3189-3198 | the loop of nested messages charges the recursion depth once and gives it back on leaving |
| `OpenConfigDataClass.SizeOfPairs` | src/grpc/lib-protos/agent.pb.cc:3378-3384 | the sizes of the repeated field, each cached in its object |
| `OpenConfigDataClass.ReadPair` | src/grpc/lib-protos/agent.pb.cc:3189-3195 | a nested object is parsed within its own limit and must use up its payload |
| `DataEncoding.PackedRoundTrip` | src/grpc/lib-protos/agent.pb.cc:6423-6440 | a packed run reads back as the list it was written from, negative numbers included |
| `DataEncoding.AnyMixture` | src/grpc/lib-protos/agent.pb.cc:6375-6397 | any interleaving of packed runs (empty ones too), single elements and other fields reads as the same flat list in order |
| `DataEncoding.ReplyRoundTrip` | src/grpc/lib-protos/agent.pb.cc:6423-6440 | reading what the message writes appends exactly its list |
| `DataEncoding.ReplyConcatIsMerge` | src/grpc/lib-protos/agent.pb.cc:6500-6503 | for all byte strings, concatenation is MergeFrom |
| `DataEncoding.WrittenReplyIff` | src/grpc/lib-protos/agent.pb.cc:6423-6440 | the bytes are right exactly if the list is empty or the cached byte size of the run is |
| `DataEncoding.DataEncodingReplyMessage.ByteSize` | src/grpc/lib-protos/agent.pb.cc:6462-6486 | computes the size and caches the size of the run that the writers need |
| `DataEncoding.DataEncodingReplyMessage.SerializeWithCachedSizes` | src/grpc/lib-protos/agent.pb.cc:6423-6440 | one tag, the cached size, the elements |
| `DataEncoding.DataEncodingReplyMessage.SerializeWithCachedSizesToArray` | src/grpc/lib-protos/agent.pb.cc:6442-6460 | the same into an array |
| `DataEncoding.DataEncodingReplyMessage.ReadRun` | src/grpc/lib-protos/agent.pb.cc:6377-6388 | a packed run is read up to its pushed limit, never past it, and the limit is popped |
| `DataEncoding.DataEncodingReplyMessage.MergePartialFromCodedStream` | src/grpc/lib-protos/agent.pb.cc:6365-6421 | the parser agrees with the plain loop for every byte string and every prediction |
| `LspStats.LspStatsRecordMessage.Clear` | src/grpc/lib-protos/lsp_stats.pb.cc:493-519 | the mask-guarded Clear yields the default message: every field default, every bit clear, given the invariant that a clear bit means a default value |
| `LspStats.LspStatsRecordMessage.ByteSize` | src/grpc/lib-protos/lsp_stats.pb.cc:800-860 | the fast path for required fields and the guard of the optional ones never change the sum, which is the length of the serialised message |
| `LspStats.LspStatsRecordMessage.RequiredFieldsByteSizeFallback` | src/grpc/lib-protos/lsp_stats.pb.cc:774-799 | the slow path adds up the required fields that are present |
| `LspStats.Masks` | src/grpc/lib-protos/lsp_stats.pb.cc:800-826 | what the combined masks 127, 7, 120 and 255 say about the seven bits |
| `LspStats.LspStatsRecordMessage.MergeFrom` | src/grpc/lib-protos/lsp_stats.pb.cc:875-905 | the merge of the two values; keeps the invariant |
| `LspStats.LspStatsRecordMessage.CopyFrom` | src/grpc/lib-protos/lsp_stats.pb.cc:913-917 | a copy of the other message, also of itself |
| `LspStats.LspStatsRecordMessage.IsInitialized` | src/grpc/lib-protos/lsp_stats.pb.cc:919-923 | true exactly if all three required fields are present |
| `LspStats.LspStatsRecordMessage.SetName` | src/grpc/lib-protos/lsp_stats.pb.cc:971-975 | makes the field present, changes no other; keeps the invariant |
| `LspStats.LspStatsRecordMessage.ClearName` | src/grpc/lib-protos/lsp_stats.pb.cc:963-966 | makes the field absent and default, changes no other; keeps the invariant |
| `LspStats.LspStatsRecordMessage.SetPackets` | src/grpc/lib-protos/lsp_stats.pb.cc:1101-1105 | the same for a number |
| `LspStats.LspStatsRecordMessage.ClearPackets` | src/grpc/lib-protos/lsp_stats.pb.cc:1093-1096 | the same for a number |
| `LspStats.LspStatsRecordMessage.SerializeWithCachedSizes` | src/grpc/lib-protos/lsp_stats.pb.cc:661-714 | writes the present fields and the unknown ones |
| `LspStats.LspStatsRecordMessage.MergePartialFromCodedStream` | src/grpc/lib-protos/lsp_stats.pb.cc:521-659 | prediction soundness; every outcome keeps the invariant |
| `LspStats.LspWhole` | src/grpc/lib-protos/lsp_stats.pb.cc:875-905 | parsing the bytes of a message merges it, presence and unknown fields included |
| `LspStats.LspConcatIsMerge` | src/grpc/lib-protos/lsp_stats.pb.cc:875-905 | for all byte strings, concatenation is merge |
| `FirewallFields.FirewallRead` | protos/firewall.proto:53-65 | the bytes of a FirewallStats, whatever they are, are read as what their fields say: the last filter name under 1 and time stamp under 2, every sub-message under 3 to 6 in order, each read from its own payload, and all other fields kept in order |
| `FirewallFields.FirewallFields` | protos/firewall.proto:53-65 | the same for any list of fields, and exactly when it fails |
| `FirewallFields.CounterRead` | protos/firewall.proto:84-93 | the i-th counter of a parsed FirewallStats: last name under 1, last packets under 2, last bytes under 3 of the i-th payload under 4 |
| `FirewallFields.CounterFields` | protos/firewall.proto:84-93 | over every list of fields: name = 1, packets = 2, bytes = 3, the last of each, and everything else kept in order |
| `FirewallFields.MemoryFields` | protos/firewall.proto:70-79 | over every list of fields: name = 1, allocated = 2, the last of each, and everything else kept in order |
| `FirewallFields.ExtendedFields` | protos/firewall.proto:115-127 | over every list of fields: offered packets and bytes = 1 and 2, transmitted packets and bytes = 3 and 4, the last of each |
| `FirewallFields.HierarchicalFields` | protos/firewall.proto:132-151 | over every list of fields: name = 1, premium packets and bytes = 2 and 3, aggregate packets and bytes = 4 and 5, the last of each |
| `FirewallFields.PolicerFields` | protos/firewall.proto:98-110 | over every list of fields: name = 1, packets = 2, bytes = 3, the last of each; the payloads under 4 read one after another into one sub-message |
| `LastFields.LastNumberIs` | src/grpc/lib-protos/firewall.pb.cc:1690-1766 | what "the last" means: it stands somewhere and none with its number stands behind it |
| `LastFields.EachIs` | src/grpc/lib-protos/firewall.pb.cc:698-704 | every payload of a repeated sub-message is parsed on its own, in order, and all have to be readable |
| `LastFields.SerialIsJoined` | src/grpc/lib-protos/firewall.pb.cc:2200-2209 | payloads read one after another into one sub-message are read like their concatenation |
| `LastFields.WholeIsFold` | src/grpc/lib-protos/inventory.pb.cc:575-740 | whether bytes are read, and as what, is decided by the list of fields they hold |
| `MessageFields.ComponentFields` | protos/inventory.proto:45-61 | over every list of fields of a Component: the last of each scalar under 1 to 5, where only the named types count, every property, state and sub-component under 6, 7 and 8 in order, and everything else kept in order, types without a name included |
| `MessageFields.NamedTypes` | protos/inventory.proto:64-70 | exactly the numbers of Null, Port, Linecard, Optic and Backplane are kept as a type |
| `MessageFields.KeyValFields` | protos/inventory.proto:73-77 | over every list of fields: key = 1, int_value = 2, str_value = 3 |
| `MessageFields.DataFields` | protos/agent.proto:161-183 | over every list of fields of an OpenConfigData: the last of each of six scalars, every pair under 7 in order; it fails exactly on text that is not UTF-8 or a pair that cannot be read |
| `MessageFields.KeyValueFields` | protos/agent.proto:186-200 | over every list of fields: key = 1, and the member of the oneof that came last, whatever came before |
| `MessageFields.RequestFields` | protos/agent.proto:64-76 | over every list of fields: the payloads under 1 and under 3 read into one sub-message each, every path under 2 in order |
| `MessageFields.InputFields` | protos/agent.proto:79-85 | over every list of fields: every collector under 1 in order |
| `MessageFields.CollectorFields` | protos/agent.proto:88-94 | over every list of fields: address = 1, port = 2 cut to 32 bits |
| `MessageFields.PathFields` | protos/agent.proto:97-123 | over every list of fields: path, filter, suppress_unchanged, max_silent_interval and sample_frequency under 1 to 5 |
| `MessageFields.ConfigFields` | protos/agent.proto:126-132 | over every list of fields: limit_records = 1, limit_time_seconds = 2, cut to signed 32 bits |
| `MessageFields.LspFields` | protos/lsp_stats.proto:54-77 | over every list of fields of an LspStatsRecord: the seven scalars, the last of each, and everything else kept in order |
| `FieldOrder.DataOrder` | src/grpc/lib-protos/agent.pb.cc:3225-3275 | an OpenConfigData is written in ascending order of field numbers |
| `FieldOrder.KeyValueOrder` | src/grpc/lib-protos/agent.pb.cc:3932-3987 | a KeyValue is written in ascending order, at most one member of the oneof among its fields |
| `FieldOrder.RequestOrder` | src/grpc/lib-protos/agent.pb.cc:788-810 | a SubscriptionRequest is written in ascending order |
| `FieldOrder.PathOrder` | src/grpc/lib-protos/agent.pb.cc:1812-1851 | a Path is written in ascending order |
| `FieldOrder.SmallOrders` | src/grpc/lib-protos/agent.pb.cc:1421-1440 | a Collector and a configuration are written in ascending order |
| `FieldOrder.ComponentOrder` | src/grpc/lib-protos/inventory.pb.cc:742-808 | a Component is written in ascending order, then its unknown fields as they came |
| `FieldOrder.KeyValOrder` | src/grpc/lib-protos/inventory.pb.cc:1507-1540 | an InventoryKeyVal is written in ascending order, then its unknown fields as they came |
| `FieldOrder.LspOrder` | src/grpc/lib-protos/lsp_stats.pb.cc:661-714 | an LspStatsRecord is written in ascending order, then its unknown fields as they came |
| `PredictedLoop.ParseInARow` | src/grpc/lib-protos/firewall.pb.cc:1305-1366 | the parser of a message without sub-messages, whose fields are predicted in a row, agrees with the plain loop, whatever the predictions answer |
| `PredictedLoop.ReadMessage` | src/grpc/lib-protos/firewall.pb.cc:698-704 | a nested message: its own limit, one level of depth, and its payload used up |
| `CodedStream.CodedInputStream.ReadTagWithCutoff` | src/grpc/lib-protos/firewall.pb.cc:659-661 | the next tag, or none, with or without the end of the input |
| `CodedStream.CodedInputStream.ExpectTag` | src/grpc/lib-protos/firewall.pb.cc:675-675 | a prediction is free to say no; when it says yes the tag was there and is consumed |
| `CodedStream.CodedInputStream.ExpectAtEnd` | src/grpc/lib-protos/firewall.pb.cc:755-755 | a prediction of the end, true only at the end |
| `CodedStream.CodedInputStream.ReadLengthAndPushLimit` | src/grpc/lib-protos/agent.pb.cc:6378-6380 | a length prefix moves the limit to the end of its payload |
| `CodedStream.CodedInputStream.SkipField` | src/grpc/lib-protos/inventory.pb.cc:727-728 | reads any field by its wire type, groups recursively within the budget |
| `CodedStream.CodedInputStream.ReadVarint64` | src/grpc/lib-protos/lsp_stats.pb.cc:580-587 | a varint of at most ten bytes, low 64 bits |
| `Records.RecordRoundTrip` | src/grpc/lib-protos/inventory.pb.cc:799-803 | every field, nested groups included, is read back as written, whatever follows |
| `Records.ReadRecordFits` | src/grpc/lib-protos/inventory.pb.cc:727-728 | what was read can be written in no more bytes and read back |
| `PlainLoop.ParseConcat` | src/grpc/lib-protos/agent.pb.cc:3084-3223 | two complete messages one after the other parse as the second into the first |
| `PlainLoop.ConcatIsMerge` | src/grpc/lib-protos/agent.pb.cc:883-892 | any message type whose handler commutes with its merge obeys the law for all byte strings |
| `PlainLoop.ParseIsFold` | src/grpc/lib-protos/inventory.pb.cc:575-740 | every complete byte string is a list of fields that can be written again in no more bytes |
| `Wire.VarintRoundTrip` | src/grpc/lib-protos/lsp_stats.pb.cc:661-690 | every 64-bit value survives a write and a read |
| `Wire.SignedRoundTrips` | src/grpc/lib-protos/agent.pb.cc:3820-3860 | two's complement and zigzag are bijections |
| `Wire.Int32RoundTrip` | src/grpc/lib-protos/agent.pb.cc:6383-6386 | an int survives its sign-extended 64-bit varint |
| `Wire.VarintIsSum` | src/grpc/lib-protos/lsp_stats.pb.cc:661-690 | the value of a varint is the sum of its seven-bit groups, lowest first |
| `Wire.FixedIsSum` | src/grpc/lib-protos/agent.pb.cc:3803-3808 | a fixed-width number is the sum of its bytes, lowest first |
| `Wire.SignedViews` | src/grpc/lib-protos/agent.pb.cc:3816-3829 | negative numbers are the upper half: -1 is 2^64 - 1 |
| `Wire.ZigzagOrder` | src/grpc/lib-protos/agent.pb.cc:3844-3857 | zigzag numbers 0, 1, 2, 3, .. stand for 0, -1, 1, -2, .. |
| `Records.FieldBytes` | src/grpc/lib-protos/inventory.pb.cc:742-808 | the tag byte of each wire type, and the payload behind it |
| `Utf8.ValidIff` | src/grpc/lib-protos/agent.pb.cc:3790-3793 | the check that parsers apply to proto3 strings accepts exactly the encodings of Unicode scalar values |
| `IniParser.ParseStream` | src/grpc/lib-inih/ini.c:73-174 | for every text and handler the in-place parser returns the error and makes the calls of the pure parser; all accesses are in bounds and both name buffers stay terminated |
| `IniParser.ParseLine` | src/grpc/lib-inih/ini.c:100-161 | one line: the buffers stand for the state that the pure step computes from the text of the line |
| `IniParser.ParsePair` | src/grpc/lib-inih/ini.c:138-160 | name, separator and value cut out of the line buffer by NULs |
| `IniParser.ParseHeader` | src/grpc/lib-inih/ini.c:124-137 | a section line |
| `IniParser.ParseValue` | src/grpc/lib-inih/ini.c:144-150 | the value behind the separator, without inline comment |
| `IniParser.RStrip` | src/grpc/lib-inih/ini.c:28-34 | whitespace at the end is gone, nothing outside the string has changed |
| `IniParser.LSkip` | src/grpc/lib-inih/ini.c:37-42 | the first character that is not whitespace |
| `IniParser.FindCharsOrComment` | src/grpc/lib-inih/ini.c:47-62 | the first stop or inline comment |
| `IniParser.StrNCpy0` | src/grpc/lib-inih/ini.c:65-70 | what fits the buffer, always terminated |
| `IniParser.Fgets` | src/grpc/lib-inih/ini.c:100-101 | a line, or as much of it as the buffer takes |
| `Ini.ScanIs` | src/grpc/lib-inih/ini.c:47-62 | the scan stops at the first place where it may stop and nowhere else |
| `Ini.TrimBoth` | src/grpc/lib-inih/ini.c:112-112 | trimming trims both ends and leaves trimmed text alone |
| `Ini.FirstError` | src/grpc/lib-inih/ini.c:100-173 | the result is the smallest number of a malformed chunk or refused call, 0 exactly if there is none |
| `Ini.BlankForQuiet` | src/grpc/lib-inih/ini.c:114-136 | replacing a malformed or comment line that fits the buffer by a blank one changes no call, and changes the result exactly if it was the first failure |
| `Ini.QuietChunk` | src/grpc/lib-inih/ini.c:114-136 | the same for any chunk of any line, however long the line |
| `Ini.ErrorIsInert` | src/grpc/lib-inih/ini.c:122-123 | a noted error influences nothing and is never overwritten |
| `Ini.BomShortensIff` | src/grpc/lib-inih/ini.c:104-111 | for every text: a byte order mark in front does no more than take its three bytes from the first buffer, exactly if the text does not begin with a mark itself or what is in that buffer is malformed either way |
| `Ini.CallsSurviveIff` | src/grpc/lib-inih/ini.c:100-111 | when the first line does not fit beside the mark: the calls stay the same for every continuation of the text exactly if the shortened line leaves the parser in the state in which the line leaves it |
| `Ini.BomTransparentIff` | src/grpc/lib-inih/ini.c:104-111 | the case with room in the buffer: exactly when the mark changes neither calls nor result |
| `Ini.BomMayBreakALine` | src/grpc/lib-inih/ini.c:104-111 | without that room the mark can turn the end of the first line into a malformed chunk |
| `Ini.ChunksAreLines` | src/grpc/lib-inih/ini.c:100-101 | error numbers are physical line numbers exactly if every line fits the buffer |
| `IniPrinter.HeaderPrinted` | src/grpc/lib-inih/ini.c:124-132 | exactly which section names come back |
| `IniPrinter.PairPrinted` | src/grpc/lib-inih/ini.c:138-155 | exactly which names and values come back |
| `IniPrinter.ValuePrinted` | src/grpc/lib-inih/ini.c:144-150 | exactly which values come back |
| `IniPrinter.MorePrinted` | src/grpc/lib-inih/ini.c:117-123 | exactly which continuation lines come back |
| `IniPrinter.RoundTrip` | src/grpc/lib-inih/ini.c:73-174 | a printable configuration is parsed into exactly its own handler calls, without error |
| `IniComments.CommentedPair` | src/grpc/lib-inih/ini.c:138-155 | a value is what stands between separator and inline comment, without the whitespace around it, for = and :, with any whitespace around the separator |
| `IniComments.SpacedPair` | src/grpc/lib-inih/ini.c:138-155 | the same without a comment |
| `IniComments.CommentBehindNothing` | src/grpc/lib-inih/ini.c:144-150 | a comment directly behind the separator is the value |
| `IniComments.SpaceIff` | src/grpc/lib-inih/ini.c:28-34 | which characters are whitespace, by code |
| `IniComments.SectionLine` | src/grpc/lib-inih/ini.c:124-132 | what stands behind the bracket of a section line, an inline comment for instance, does not matter |
| `IniComments.CommentLine` | src/grpc/lib-inih/ini.c:114-116 | a line that starts with ; or # makes no call and no error |
| `IniComments.MalformedIff` | src/grpc/lib-inih/ini.c:124-160 | exactly which lines are malformed: a section line without a bracket, or a line without a separator, before any inline comment |
| `IniComments.SameMeaning` | src/grpc/lib-inih/ini.c:73-174 | for every text and handler: replacing a line that fits the buffer by another that means the same changes neither calls nor result |
| `IniComments.CommentsAreDropped` | src/grpc/lib-inih/ini.c:73-174 | inline comments and the whitespace around a value can be deleted from any line that fits the buffer without changing calls or result |
| `IniReader.LowerIff` | src/grpc/lib-inih/INIReader.cpp:64-70 | folded texts are equal exactly if the texts are equal up to the case of the 26 letters |
| `IniReader.MakeKeyInjective` | src/grpc/lib-inih/INIReader.cpp:64-70 | two pairs whose names have no = share a key exactly if they are equal up to case |
| `IniReader.KeysCanMerge` | src/grpc/lib-inih/INIReader.cpp:64-70 | with = in a name two different pairs would merge |
| `IniReader.AskedSameKey` | src/grpc/lib-inih/INIReader.cpp:64-70 | which section and name a look-up with = in its name really asks for |
| `IniReader.RunIsSafe` | src/grpc/lib-inih/ini.c:138-155 | no name the parser emits contains = |
| `IniReader.StoredSnoc` | src/grpc/lib-inih/INIReader.cpp:72-81 | appending values one by one gives the newline-join without the leading empty ones |
| `IniReader.INIReader.constructor` | src/grpc/lib-inih/INIReader.cpp:16-19 | after reading, every key holds exactly what the events say; a file that cannot be opened leaves the error -1 and an empty map |
| `IniReader.INIReader.ValueHandler` | src/grpc/lib-inih/INIReader.cpp:72-81 | one event changes its own key only |
| `IniReader.INIReader.GetAgrees` | src/grpc/lib-inih/INIReader.cpp:26-30 | every look-up returns the join of the values of the section and name it really asks for, in any case, the default exactly if there are none; with = in the name that is another section and name, the key being cut at its last = |
| `IniReader.INIReader.GetOfPrinted` | src/grpc/lib-inih/INIReader.cpp:26-30 | a configuration that was printed and read answers every look-up from its own entries |
| `Registry.AlwaysSafe` | src/grpc/client/AgentClient.cpp:32-78 | over all interleavings each entry points to a live client of its name, the management client is never replaced, removed or cancelled, and no client processes more than one message after its cancellation |
| `Registry.FindableIff` | src/grpc/client/AgentClientParser.cpp:30-43 | all clients can be found throughout a run exactly if no creation overwrote an entry |
| `Registry.AClientCanBeLost` | src/grpc/client/AgentClientParser.cpp:30-56 | two threads racing past the search with one name leave a live client that cannot be found |
| `Registry.CancelIsFinal` | src/grpc/client/AgentClient.cpp:177-234 | a cancelled client stays cancelled, and how many messages it still processes was decided when it was cancelled: one if a message had just passed the check, none otherwise |
| `Registry.NumberedNames` | src/grpc/client/AgentClientParser.cpp:129-135 | a numbered thread name is never the management client's, and names of one prefix differ with their numbers |
| `Registry.ActiveClients.Create` | src/grpc/client/AgentClient.cpp:32-45 | the new client takes over the name; entries stay live |
| `Registry.ActiveClients.Find` | src/grpc/client/AgentClient.cpp:67-78 | the client registered under the name, or none |
| `Registry.ActiveClients.Delete` | src/grpc/client/AgentClient.cpp:47-58 | the entry under the client's name is removed; entries stay live |
| `Registry.AgentClient.CancelSubscribeTelemetry` | src/grpc/client/AgentClient.cpp:207-234 | only a client with a server id and a successful reply becomes inactive |
| `RegistryRuns.InactiveIff` | src/grpc/client/AgentClient.cpp:207-234 | over every run a living client is inactive exactly if the run contains a successful cancellation of it while it had a server id, and has a server id exactly if the run contains the server's answer with one |
| `RegistryRuns.CheckDecides` | src/grpc/client/AgentClient.cpp:177-193 | over every run the check of the read loop ends it if the client was cancelled, and goes on otherwise |
| `RegistryRuns.AliveIff` | src/grpc/client/AgentClient.cpp:32-58 | over every run a client lives exactly if it was created and not deleted |
| `RegistryRuns.EntryIs` | src/grpc/client/AgentClient.cpp:32-78 | over every run a name leads to the client created last under it, or nowhere if a client of that name has been deleted since |
| `RegistryRuns.EveryMessageOnce` | src/grpc/client/AgentClient.cpp:177-193 | over every run each message that is read is checked once and each that passes is processed once, the last one possibly still on its way |
| `RegistryRuns.EndingIff` | src/grpc/client/AgentClient.cpp:133-205 | over every run a thread is about to delete its client exactly if the metadata was missing, the stream was over or the client was found cancelled, and it has not deleted it since |
| `RegistryRuns.SearchesIff` | src/grpc/client/AgentClientParser.cpp:26-206 | over every run a thread searches to subscribe exactly under the name it was started with, given or numbered, and to unsubscribe exactly under a name that is not the management client's |
| `RegistryRuns.NumberIs` | src/grpc/client/AgentClientParser.cpp:129-181 | over every run the next number is how many names have been numbered since the last reset |
| `RegistryRuns.OthersUntouched` | src/grpc/client/AgentClient.cpp:32-234 | a step leaves every client alone that its thread does not work with |
| `RegistryProgram.Program.Find` | src/grpc/client/AgentClient.cpp:67-78 | the real search does what the step says, and its result decides what the thread does next |
| `RegistryProgram.Program.Create` | src/grpc/client/AgentClient.cpp:32-45 | the real creation does what the step says |
| `RegistryProgram.Program.Metadata` | src/grpc/client/AgentClient.cpp:133-151 | the flag of the real client follows the step; without metadata the thread ends |
| `RegistryProgram.Program.Check` | src/grpc/client/AgentClient.cpp:177-193 | what the real flag says is what the step does |
| `RegistryProgram.Program.Delete` | src/grpc/client/AgentClient.cpp:47-58 | the real destructor does what the step says |
| `RegistryProgram.Program.Cancel` | src/grpc/client/AgentClient.cpp:207-234 | the real cancellation does what the step says |
| `Lag.LagDb.UpdateStats` | src/grpc/client/AgentClientLag.cpp:66-112 | a message is counted as the function of its entries says |
| `Lag.EveryCounterExact` | src/grpc/client/AgentClientLag.cpp:66-112 | over any run of messages each counter grows, modulo 2^64, by exactly the entries whose nearest preceding prefix and parent name are its own |
| `Lag.Conservation` | src/grpc/client/AgentClientLag.cpp:66-112 | the sum of all counters grows by exactly what was reported for one of them |
| `Lag.GroupsAreIndependent` | src/grpc/client/AgentClientLag.cpp:66-112 | a group changes as if the others did not exist |
| `Lag.EntryCounts` | src/grpc/client/AgentClientLag.cpp:66-112 | one entry: a packets entry adds its number to the member of the last prefix in the group of the last parent name before it, if there is such a counter; any other entry counts nothing |
| `Lag.MemberGrows` | src/grpc/client/AgentClientLag.cpp:15-112 | a message for member j of group i of a built database makes exactly that member's counter grow, by exactly the number in the message |
| `Decimal.ToStringIs` | src/grpc/client/AgentClientLag.cpp:18-24 | the decimal text stands for its number and has no leading zero |
| `Lag.LagDb.Build` | src/grpc/client/AgentClientLag.cpp:15-30 | the database gets the named groups and members, all counters zero |
| `Lag.BuiltSize` | src/grpc/client/AgentClientLag.cpp:15-30 | lag_count * lc_count counters: no two share their names |
| `Lag.LagNamesDistinct` | src/grpc/client/AgentClientLag.cpp:18-20 | group names differ with their numbers |
| `Lag.MemberNamesDistinct` | src/grpc/client/AgentClientLag.cpp:23-24 | member names differ with their pair of numbers |
| `Lag.LagDb.AddLag` | src/grpc/client/AgentClientLag.cpp:39-43 | a group replaces the one of its name |
| `Lag.AgentLag.AddMember` | src/grpc/client/AgentClientLag.hpp:46-49 | a member is found under its name |
| `Lag.AgentLag.Total` | src/grpc/client/AgentClientLag.hpp:63-78 | the printed total is the sum of the group's counters modulo 2^64 |
| `Lag.AgentMemberInterface.IncPackets` | src/grpc/client/AgentClientLag.hpp:24-24 | the counter wraps around at 2^64 |
| `OcFirewall.Iterate` | src/grpc/lib-oc/OpenConfigFirewall.cpp:15-73 | the message gets the entries of all filters behind its own: what each of them says is stated field by field, and everything kept can be read back |
| `OcFirewall.Invertible` | src/grpc/lib-oc/OpenConfigFirewall.cpp:15-73 | from the list one reads back every name, time stamp and every entry whose guarding field is not zero, in order, for arbitrary names |
| `OcFirewall.SameListIff` | src/grpc/lib-oc/OpenConfigFirewall.cpp:15-73 | two statistics give the same list exactly if they agree in all that is kept |
| `OcFirewall.NamedKeys` | src/grpc/lib-oc/OpenConfigFirewall.cpp:36-71 | the key texts tell the entries apart whatever the names |
| `OcFirewall.AddMemory` | src/grpc/lib-oc/OpenConfigFirewall.cpp:29-39 | the loop appends one entry for each region with allocated bytes, its name and the bytes |
| `OcFirewall.AddCounters` | src/grpc/lib-oc/OpenConfigFirewall.cpp:41-55 | the loop appends, for each counter with packets, its packets and then its bytes |
| `OcFirewall.AddPolicers` | src/grpc/lib-oc/OpenConfigFirewall.cpp:57-71 | the loop appends, for each policer with packets, its packets and then its bytes |
| `OcFirewall.AllIsSaid` | src/grpc/lib-oc/OpenConfigFirewall.cpp:15-73 | the entries, field by field: prefix, time stamp, then two entries for each counter with packets, its packets and its bytes, and so on, in order, and no others |
| `OcFirewall.FilterIsSaid` | src/grpc/lib-oc/OpenConfigFirewall.cpp:20-71 | the same for one filter |
| `OcFirewall.MemoryIsSaid` | src/grpc/lib-oc/OpenConfigFirewall.cpp:29-39 | one entry for each region with allocated bytes, in order, and none for the others |
| `OcFirewall.CountersAreSaid` | src/grpc/lib-oc/OpenConfigFirewall.cpp:41-55 | two entries in a row for each counter with packets, its packets and then its bytes, and none for the others |
| `OcFirewall.PolicersAreSaid` | src/grpc/lib-oc/OpenConfigFirewall.cpp:57-71 | two entries in a row for each policer with packets, and none for the others |
| `OcPrefix.PrefixInvertible` | src/grpc/lib-oc/oc.hpp:26-37 | the name can be taken out of a prefix text again |

## Left out

- The stream library (CodedInputStream, CodedOutputStream, WireFormatLite) is not in the repository. Its operations are
  modelled from the Protocol Buffers Encoding guide: a varint has at most ten bytes; a length prefix that is negative or
  longer than what is left is a failed read; a tag that is no varint stops the loop without consuming anything; the largest
  one-byte tag is 127.
- Sizes are unbounded integers; messages are required to be shorter than 2^31 bytes where a length is read back.
- After a failed parse the source leaves a partly changed message, and how far it got depends on the library as well; the
  verdict is modelled, those contents are not:
- FirewallClass.FirewallStatsMessage.MergePartialFromCodedStream: nothing about the message after a failure.
- PolicerClass.PolicerStatsMessage.MergePartialFromCodedStream: nothing about the message after a failure.
- ComponentClass.ComponentMessage.MergePartialFromCodedStream: nothing about the message after a failure.
- KeyValueClass.KeyValueMessage.MergePartialFromCodedStream: nothing about the message after a failure, although the model
  clears the oneof before it reads a member, as the source does.
- OpenConfigDataClass.OpenConfigDataMessage.MergePartialFromCodedStream: nothing about the message after a failure.
- RequestClass.SubscriptionRequestMessage.MergePartialFromCodedStream: nothing about the message after a failure.
- InputClass.InputMessage.MergePartialFromCodedStream: nothing about the message after a failure.
- LspStats.LspStatsRecordMessage.MergePartialFromCodedStream: only the invariant of the presence bits after a failure.
- DataEncoding.DataEncodingReplyMessage.MergePartialFromCodedStream: nothing about the message after a failure; a run that
  is longer than what is left is refused at its length.
- DataEncoding.DataEncodingReplyMessage.ReadRun: a run that is longer than what is left is refused at its length, where the
  source pushes the limit and reads on; what the library then does is not part of this model.
- CodedStream.CodedInputStream.ReadLengthAndPushLimit: a length beyond the current limit is a failed read, for the same
  reason.
- PredictedLoop.ParseInARow: one method for every message without sub-messages; it reads a field by its wire type and hands
  it to the message's handler instead of reading it with a typed call of its own.
- Memory regions, counters, policers and hierarchical policers of FirewallStats are values inside it; a policer is an object
  while it is parsed.
- The writers of FirewallStats and its sub-messages, and the array writers of Component, InventoryKeyVal and LspStatsRecord.
  Nested size caches are modelled for Component, OpenConfigData and SubscriptionRequest.
- Presence bits are modelled as bits for LspStatsRecord and as optional fields elsewhere. `ZR_` in Clear is taken to zero the
  scalar fields it spans.
- UTF-8 problems in proto2 strings are only logged by the source and have no effect here.
- Arenas, reflection, Swap, release and set_allocated, text format, the other generated messages, and the OpenConfig
  translators beyond the firewall.
- gRPC channels, MQTT, files, logging and console output. What a server answers is part of a step of `Registry`.
- Client identities are never reused in `Registry`, and a cancellation that reaches a deleted client does nothing: lifetimes
  of pointers returned by the unlocked search are not modelled, nor are data races on single words.
- RegistryProgram.Program.Cancel: for a client that has not been deleted meanwhile; on a deleted one the source uses memory
  that has been freed, which is not modelled.
- Registry.ActiveClients.Find: takes one look at the map as one atomic step; the source does it without the lock.
- Lag.LagDb.AddLag: the group that is added must not share counter objects with the groups that are there; the source adds
  freshly built groups only.
- `AgentLag::deleteMember` has no caller and is left out; group and member names are taken as ASCII.
- Texts with NUL characters, the C locale's alternatives, and GetInteger, GetReal and GetBoolean of INIReader.
- IniReader.INIReader.constructor: the handler calls are delivered after the parse, in order; the source delivers each one
  during the parse, which makes no difference because the handler never refuses one. INIReader.h is not part of this model.
- IniPrinter.RoundTrip: the conditions on lines are exact one by one; for a whole file they are sufficient.
- `src/inih` holds a second copy of the INI parser, which is modelled once.
