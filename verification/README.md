# Apache Traffic Server: plugin loading, certificate lookup, traffic dump and replay translation

This project is a Dafny model of five pieces of Apache Traffic Server, with
proofs about them:

- **`iocore/net/P_SSLCertLookup.h`** (`cert_lookup.dfy`, module `CertLookup`).
  - `SSLCertContext` holds a certificate context with its option, user
    configuration and session-ticket key block. Its constructors, copy,
    assignment, `getCtx`, `setCtx` and `release` are modelled.
  - The ticket key (`ssl_ticket_key_t`, 48 bytes) and the ticket key block
    come with a byte layout and a parser, and are proved to round-trip.
  - `SSLCertLookup` is the table of contexts. It has two indexes: one by
    server name and one by IP endpoint. Each index has exact keys and
    wildcard keys. `insert`, `find`, `count`, `get` and `defaultContext`
    are modelled.
- **`plugins/experimental/traffic_dump/traffic_dump.cc`** (`json_escape.dfy`,
  `traffic_dump.dfy`).
  - The JSON escaper `esc_json_out` and its helper `min_write` are modelled
    as loops over a buffer that append to an output stream. So are the
    `escape_json` wrappers.
  - The escaped output is proved to decode back to the input under the
    string grammar of RFC 8259 (section 7).
  - The `json_entry` / `json_entry_array` formatters are proved to give back
    their name and value when read.
  - Session sampling (`id % sample_pool_size`) and the 16-digit hex log file
    name are modelled.
  - The comma rule between transaction records is proved to give a
    comma-separated list.
  - The per-session state `SsnData` is a class. It has the descriptor, the
    pending AIO count, the write offset and the first-transaction flag.
    Methods cover `write_to_disk`, the transaction, session-start and
    session-close handlers, and the AIO completion handler that frees the
    session once its last write is done after close.
- **`proxy/Plugin.h`** (`plugin_context.dfy`, module `PluginCore`).
  - `PluginInfo` is the registration record of a plugin.
  - The per-thread plugin slot and the scoped `PluginContext` are modelled.
    It is proved re-entrant: after any nest of callbacks, the thread's
    plugin is what it was before.
  - The `PluginIdentity` defaults are modelled as constants: no plugin tag and instance id 0.
- **`proxy/Plugin.cc`** (`plugin_config.dfy`, module `PluginConfig`, and
  `plugin_manager.dfy`, module `PluginManagement`).
  - The plugin.config line tokenizer is modelled in place on a `char`
    array. It is proved against a functional scanner: the arguments, their
    start positions and the NULs written into the buffer all match.
  - The `$` expansion of arguments and the final `argv` layout are modelled.
  - `PluginManager` is a class. It has the registration list, the internal
    and default plugin records, `initForThread`, `find` (case-insensitive),
    `load` and `init`.
- **`tests/tools/traffic-replay/translator.py`** (`translator.dfy`, module
  `Translator`).
  - `condenseHeaders` is modelled, with a parser proving that the header
    block gives back the header list.
  - `translate` is modelled as one worker draining the input queue. It skips
    the placeholder name and logs that fail to parse. It stops at 5000
    translations in test mode and ends on a log that cannot be translated.
    Each written session comes from the input file it names.

`wrappers.dfy` holds the `Option` type the modules share.

## Model

| member | source | states |
|---|---|---|
| CertLookup.KeyBytes | iocore/net/P_SSLCertLookup.h:33-37 | a ticket key is laid out in 48 bytes: key name, HMAC secret and AES key at offsets 0, 16 and 32 |
| CertLookup.ParseKey | iocore/net/P_SSLCertLookup.h:33-37 | a byte string is read as a key exactly when it is 48 bytes long, and the key it gives is well formed |
| CertLookup.KeyRoundTrip | iocore/net/P_SSLCertLookup.h:33-37 | reading the layout of a key gives the key back |
| CertLookup.ParseKeyRoundTrip | iocore/net/P_SSLCertLookup.h:33-37 | laying out a key read from 48 bytes gives the same bytes back |
| CertLookup.KeysBytes | iocore/net/P_SSLCertLookup.h:39-42 | the keys of a block take 48 bytes each |
| CertLookup.ParseKeys | iocore/net/P_SSLCertLookup.h:39-42 | n keys are read exactly from 48·n bytes, and all are well formed |
| CertLookup.KeysRoundTrip | iocore/net/P_SSLCertLookup.h:39-42 | reading back the bytes of any key list gives the list |
| CertLookup.ParseBlock | iocore/net/P_SSLCertLookup.h:39-42 | a block of n keys is read exactly from 48·n bytes, and its key count is n |
| CertLookup.BlockRoundTrip | iocore/net/P_SSLCertLookup.h:39-42 | a well-formed key block is recovered from its bytes and its key count |
| CertLookup.SSLCertContext.constructor | iocore/net/P_SSLCertLookup.h:60 | the default context holds no SSL context, no option, no user configuration and no key block |
| CertLookup.SSLCertContext.FromCtx | iocore/net/P_SSLCertLookup.h:61-64 | a context built from an SSL context holds it and nothing else |
| CertLookup.SSLCertContext.WithOption | iocore/net/P_SSLCertLookup.h:65-67 | holds the given SSL context and option, with no user configuration or key block |
| CertLookup.SSLCertContext.WithConfig | iocore/net/P_SSLCertLookup.h:68-71 | holds the SSL context, option and user configuration, with no key block |
| CertLookup.SSLCertContext.WithKeys | iocore/net/P_SSLCertLookup.h:72-75 | holds all four given parts |
| CertLookup.SSLCertContext.Copy | iocore/net/P_SSLCertLookup.h:76 | the copy holds the same four parts as the original |
| CertLookup.SSLCertContext.Assign | iocore/net/P_SSLCertLookup.h:77 | after assignment the target holds the source's four parts as they were |
| CertLookup.SSLCertContext.SetCtx | iocore/net/P_SSLCertLookup.h:80 | afterwards `getCtx` gives the new SSL context, and the other three parts are unchanged |
| CertLookup.SSLCertContext.Release | iocore/net/P_SSLCertLookup.h:81 | afterwards `getCtx` gives nothing, and the other three parts are unchanged |
| CertLookup.AddTakes | iocore/net/P_SSLCertLookup.h:93-94 | after adding key `k`, the keys taken are exactly those taken before plus `k`; the other exact entries keep their positions and the earlier wildcard entries stay in order at the front |
| CertLookup.AddValid | iocore/net/P_SSLCertLookup.h:93-94 | adding a key that is not already taken keeps every index entry pointing at an existing context |
| CertLookup.FirstCover | iocore/net/P_SSLCertLookup.h:96-107 | finds the first wildcard entry that covers the key; there is none exactly when no entry covers it |
| CertLookup.SSLCertLookup.constructor | iocore/net/P_SSLCertLookup.h:119 | a new table is valid and empty, with no default context, and is marked valid |
| CertLookup.SSLCertLookup.Get | iocore/net/P_SSLCertLookup.h:117 | the i-th context is one of the table's contexts, and no other position holds it |
| CertLookup.SSLCertLookup.FindName | iocore/net/P_SSLCertLookup.h:103-107 | an exact name match wins; otherwise some covering wildcard's context is returned; nothing is found exactly when neither exists |
| CertLookup.SSLCertLookup.FindAddress | iocore/net/P_SSLCertLookup.h:96-101 | the destination is preferred to the source, and exact entries to wildcards; nothing is found exactly when no entry matches either endpoint |
| CertLookup.SSLCertLookup.InsertName | iocore/net/P_SSLCertLookup.h:93 | returns -1 and changes nothing when the name is taken; otherwise appends a copy of the context at the returned index, indexes the name, and an exact name then finds that context; the default context is unchanged |
| CertLookup.SSLCertLookup.InsertAddress | iocore/net/P_SSLCertLookup.h:94 | the same for an IP endpoint; an exact address inserted is then found as the destination |
| CertLookup.SSLCertLookup.FoundNameIsListed | iocore/net/P_SSLCertLookup.h:103-117 | every context `find` returns is one that `get` gives for some index below `count` |
| CertLookup.SSLCertLookup.ExactNameHidesWildcard | iocore/net/P_SSLCertLookup.h:103-107 | an exact entry for a name is found even when a wildcard also covers it |
| JsonEscape.HexDigits | plugins/experimental/traffic_dump/traffic_dump.cc:140-141 | `std::hex` with `setw(4)` and fill '0' gives exactly four lower-case hex digits |
| JsonEscape.HexRoundTrip | plugins/experimental/traffic_dump/traffic_dump.cc:140-141 | the value of the zero-padded hex digits is the number printed |
| JsonEscape.EscapeChar | plugins/experimental/traffic_dump/traffic_dump.cc:105-145 | a character that needs no escape is written as itself; any other is written as an escape sequence starting with a backslash |
| JsonEscape.EscapeAppend | plugins/experimental/traffic_dump/traffic_dump.cc:103-146 | escaping is done character by character, so it distributes over concatenation |
| JsonEscape.EscapePlainRun | plugins/experimental/traffic_dump/traffic_dump.cc:137-144 | text with no quote, backslash or control character is written unchanged |
| JsonEscape.EscapeHasNoControl | plugins/experimental/traffic_dump/traffic_dump.cc:105-145 | escaped output contains no control character (U+0000 to U+001F) |
| JsonEscape.DecodeEscapeChar | plugins/experimental/traffic_dump/traffic_dump.cc:105-145 | each escape sequence written decodes to the character it stands for under RFC 8259 |
| JsonEscape.LetterRoundTrip | plugins/experimental/traffic_dump/traffic_dump.cc:106-136 | each two-character escape the writer uses is one RFC 8259 reads back as the same character |
| JsonEscape.DecodeHexEscape | plugins/experimental/traffic_dump/traffic_dump.cc:137-143 | a `\u` escape of a control character decodes to that character |
| JsonEscape.EscapeRoundTrip | plugins/experimental/traffic_dump/traffic_dump.cc:97-150 | escaped text followed by a closing quote decodes back to the original text and leaves the rest |
| JsonEscape.EscapeInjective | plugins/experimental/traffic_dump/traffic_dump.cc:97-150 | two texts with the same escaped form are equal |
| JsonEscape.MinWrite | plugins/experimental/traffic_dump/traffic_dump.cc:88-95 | writes the pending plain run only when it is not empty, and moves the run start past the current byte |
| JsonEscape.WriteEscape | plugins/experimental/traffic_dump/traffic_dump.cc:106-144 | writes the escape sequence of a byte that needs one |
| JsonEscape.ToInt32 | plugins/experimental/traffic_dump/traffic_dump.cc:98-99 | the returned `int` is in the 32-bit range, congruent to the `int64_t` length modulo 2^32, and equal to it when it fits |
| JsonEscape.EscJsonOut | plugins/experimental/traffic_dump/traffic_dump.cc:97-150 | a null buffer writes nothing and returns 0; otherwise the stream gains the escaped first `len` bytes (none when `len` is negative) and `len` is returned converted to `int`, unchanged when it fits |
| JsonEscape.EscapeTail | plugins/experimental/traffic_dump/traffic_dump.cc:147 | the final write of the pending plain run completes the escaped prefix |
| JsonEscape.EscapeJson | plugins/experimental/traffic_dump/traffic_dump.cc:152-159 | the string form gives the escaped text, which decodes back to the string |
| JsonEscape.BufText | plugins/experimental/traffic_dump/traffic_dump.cc:160-166 | the text of a buffer and size has the size as its length, or is empty for a null buffer or a negative size |
| JsonEscape.EscapeJsonBuf | plugins/experimental/traffic_dump/traffic_dump.cc:160-166 | the buffer form gives the escaped text of the buffer's first `size` bytes, and nothing for a null buffer or a size of zero or less |
| TrafficDump.ReadStringOf | plugins/experimental/traffic_dump/traffic_dump.cc:168-192 | a quoted escaped string is read back as the original string, leaving what follows |
| TrafficDump.Pair | plugins/experimental/traffic_dump/traffic_dump.cc:168-192 | a quoted, escaped name/value pair between the given delimiters reads back as that name and value |
| TrafficDump.JsonEntry | plugins/experimental/traffic_dump/traffic_dump.cc:168-173 | the `"name": "value"` entry reads back as the name and value |
| TrafficDump.JsonEntryBuf | plugins/experimental/traffic_dump/traffic_dump.cc:175-179 | the buffer form `"name":"value"` reads back as the name and the buffer's text |
| TrafficDump.JsonEntryArray | plugins/experimental/traffic_dump/traffic_dump.cc:181-186 | the `["name", "value"]` entry reads back as the name and value |
| TrafficDump.JsonEntryArrayBuf | plugins/experimental/traffic_dump/traffic_dump.cc:188-192 | the buffer form of the array entry reads back as the two buffers' texts |
| TrafficDump.Sampled | plugins/experimental/traffic_dump/traffic_dump.cc:383-387 | a session is dumped exactly when its id is a multiple of the sample pool size, negative ids and sizes included |
| TrafficDump.MultiplesAreSampled | plugins/experimental/traffic_dump/traffic_dump.cc:383-387 | every multiple of the pool size is sampled |
| TrafficDump.SessionFileName | plugins/experimental/traffic_dump/traffic_dump.cc:415-418 | the file name is 16 lower-case hex digits whose value is the id taken modulo 2^64 (its 64-bit two's complement) |
| TrafficDump.SessionFileNameInjective | plugins/experimental/traffic_dump/traffic_dump.cc:415-418 | distinct ids anywhere in the signed 64-bit range get distinct file names |
| TrafficDump.EmittedAfterFirst | plugins/experimental/traffic_dump/traffic_dump.cc:315-319 | once the first record is written, every later record is preceded by a comma |
| TrafficDump.EmittedIsJoin | plugins/experimental/traffic_dump/traffic_dump.cc:315-322 | the records of a session, as written, form a comma-separated list with no leading or trailing comma |
| TrafficDump.SsnData.constructor | plugins/experimental/traffic_dump/traffic_dump.cc:35-49 | a new session has no log descriptor, is open, has no pending writes, is at offset 0 and expects its first transaction |
| TrafficDump.SsnData.WriteToDisk | plugins/experimental/traffic_dump/traffic_dump.cc:63-83 | an accepted write advances the offset by the body's size and adds one pending write; a refused one changes nothing and returns an error |
| TrafficDump.SsnData.OpenLog | plugins/experimental/traffic_dump/traffic_dump.cc:432-459 | stores the descriptor; when it is valid and the write is accepted, the log beginning is the one pending write |
| TrafficDump.TxnClose | plugins/experimental/traffic_dump/traffic_dump.cc:309-354 | the transaction record is written, with a leading comma unless it is the first, and the session no longer expects a first transaction |
| TrafficDump.SessionTxnHandler | plugins/experimental/traffic_dump/traffic_dump.cc:291-364 | with no session data it continues; another event is an error and changes nothing; a close writes the record (one more outstanding write) or, when the write is refused, leaves the log as it was, continues either way, and leaves the descriptor and the closed flag alone |
| TrafficDump.SessionClose | plugins/experimental/traffic_dump/traffic_dump.cc:464-482 | writes the closing `]}]}` (one more outstanding write) or leaves the log as it was when refused, marks the session closed, keeps the descriptor and the first-record flag; no session data leaves nothing to do |
| TrafficDump.DumpPlugin.constructor | plugins/experimental/traffic_dump/traffic_dump.cc:29 | the sample pool size starts at 1000 |
| TrafficDump.DumpPlugin.OnLifecycleMessage | plugins/experimental/traffic_dump/traffic_dump.cc:373-380 | only the tag `traffic_dump.sample` changes the pool size |
| TrafficDump.DumpPlugin.SessionStart | plugins/experimental/traffic_dump/traffic_dump.cc:381-463 | exactly the sampled sessions get fresh session data, named by their hex file name; a log that opens and is accepted starts with the meta, protocol, connection-time and transactions prefix |
| TrafficDump.AioCont.constructor | plugins/experimental/traffic_dump/traffic_dump.cc:47-396 | the AIO continuation, created in the `SsnData` constructor (line 47), carries the session data that `TSContDataSet` sets on it (line 396) |
| TrafficDump.SessionAioHandler | plugins/experimental/traffic_dump/traffic_dump.cc:256-289 | a completed write with a buffer takes one off the pending count; the session is released exactly when that was the last write and the session is closed; other events are errors that change nothing; the descriptor, offset, written bytes, closed and first flags and the session invariant are kept |
| PluginCore.PluginInfo.constructor | proxy/Plugin.cc:60-63 | a new record has the magic value, no library handle and no flags set |
| PluginCore.SetDefaultPluginInfo | proxy/Plugin.h:132-136 | afterwards the given plugin is in context on the thread |
| PluginCore.PluginContext.constructor | proxy/Plugin.h:107-112 | remembers the plugin in context before and puts the given one in context |
| PluginCore.PluginContext.Destroy | proxy/Plugin.h:114-117 | puts back the plugin that was in context when the scope opened |
| PluginCore.RunCallbacks | proxy/Plugin.h:105-117 | under any nest of scoped contexts, `get` read from the thread slot on entry to each callback gives that callback's own plugin, and afterwards the thread's plugin is what it was before |
| PluginConfig.Text | proxy/Plugin.cc:268 | the line read is the buffer's contents up to its first NUL |
| PluginConfig.SkipWs | proxy/Plugin.cc:273-275 | skipping stops at the end of the line or at a character that is not white space |
| PluginConfig.QuoteEnd | proxy/Plugin.cc:299-301 | a quoted argument ends at the next double quote or at the end of the line |
| PluginConfig.WordEnd | proxy/Plugin.cc:309-311 | an unquoted argument ends at white space, at `#` or at the end of the line |
| PluginConfig.SkipWsChars | proxy/Plugin.cc:273-275 | everything skipped is white space |
| PluginConfig.QuoteEndChars | proxy/Plugin.cc:299-301 | a quoted argument contains no double quote |
| PluginConfig.WordEndChars | proxy/Plugin.cc:309-311 | an unquoted argument contains no white space and no `#` |
| PluginConfig.FirstToken | proxy/Plugin.cc:294-316 | the next argument starts at the first non-white character after the position, one further when that is an opening quote; it lies within the line and is cut off only when a delimiter follows it |
| PluginConfig.Scan | proxy/Plugin.cc:281-317 | a line never yields more arguments than MAX_PLUGIN_ARGS (64) |
| PluginConfig.TokenCap | proxy/Plugin.cc:282-285 | the argument count of a line is at most 64 |
| PluginConfig.BlankLineHasNoTokens | proxy/Plugin.cc:272-278 | a blank or comment line has no arguments |
| PluginConfig.OtherLineHasTokens | proxy/Plugin.cc:272-297 | any other line has at least one argument |
| PluginConfig.ScanShape | proxy/Plugin.cc:281-317 | the arguments lie left to right and do not overlap; the first starts at the first non-white character (after its quote), each later one at the first non-white character after the previous one's cut, and every argument but the last is cut |
| PluginConfig.ScanChars | proxy/Plugin.cc:294-316 | a quoted argument holds no quote, an unquoted one no white space or `#` |
| PluginConfig.ScanAfterSkip | proxy/Plugin.cc:273-289 | skipping the leading white space before the loop does not change the arguments found |
| PluginConfig.HashGluedTokenKeepsComment | proxy/Plugin.cc:309-314 | a `#` right after an unquoted argument ends the scan without a cut, so that last argument runs to the end of the line, comment included |
| PluginConfig.CutArguments | proxy/Plugin.cc:297-315 | in the cut buffer each argument is the C string starting at its recorded position |
| PluginConfig.LineArguments | proxy/Plugin.cc:268-317 | the C strings at the argument positions of the cut buffer are exactly the arguments of the line |
| PluginConfig.SkipWhitespace | proxy/Plugin.cc:287-289 | the array loop stops where the white-space skip does |
| PluginConfig.FindQuote | proxy/Plugin.cc:299-301 | the array loop stops at the closing quote as defined |
| PluginConfig.FindWordEnd | proxy/Plugin.cc:309-311 | the array loop stops at the end of the word as defined |
| PluginConfig.ReadToken | proxy/Plugin.cc:294-316 | the argument read from the array is the next argument of the line |
| PluginConfig.TokenizeLine | proxy/Plugin.cc:268-317 | a line is passed over exactly when it is blank or a comment; otherwise the count and start positions are those of the line's arguments, and the buffer holds the line with a NUL at each cut |
| PluginConfig.CutTokens | proxy/Plugin.cc:281-317 | the in-place loop records the arguments and writes the NULs of the functional scan |
| PluginConfig.Expand | proxy/Plugin.cc:179-233 | only an argument that starts with `$` can have an expansion |
| PluginConfig.ExpandAll | proxy/Plugin.cc:319-324 | each argument is replaced by its expansion when there is one and kept otherwise |
| PluginConfig.ExpandArgs | proxy/Plugin.cc:319-324 | the loop replaces each argument by its expansion when there is one |
| PluginConfig.FinalArgv | proxy/Plugin.cc:326-330 | argv ends with a null entry after the arguments, or on the last slot when there are 64 |
| PluginConfig.FullLineLosesLastArgument | proxy/Plugin.cc:326-330 | with 64 arguments the 64th is replaced by null, and the others are kept |
| PluginConfig.TokenArgs | proxy/Plugin.cc:297-315 | the argument strings of a line are the text of its tokens in order |
| PluginConfig.LineArgs | proxy/Plugin.cc:268-324 | a line gives as many arguments as it has tokens, at most 64 |
| PluginManagement.Lower | proxy/Plugin.cc:354 | an upper-case ASCII letter is lowered; any other character is kept; the result is never upper case |
| PluginManagement.LowerStr | proxy/Plugin.cc:354 | lower-casing a name lowers each character in place |
| PluginManagement.EqualsIgnoreCaseIff | proxy/Plugin.cc:354 | `strcasecmp` reports equality exactly when the lower-cased names are equal |
| PluginManagement.EqualsIgnoreCaseSymmetric | proxy/Plugin.cc:354 | the case-insensitive match is symmetric |
| PluginManagement.Register | proxy/Plugin.cc:169 | a plugin that registers is marked registered under its name |
| PluginManagement.PluginManager.constructor | proxy/Plugin.cc:75-95 | the thread starts with no plugin; the internal and default records get their names, the ASF vendor, the path "." and the developers' mail |
| PluginManagement.PluginManager.InitForThread | proxy/Plugin.cc:235-240 | every thread starts with the default plugin in context |
| PluginManagement.PluginManager.Find | proxy/Plugin.cc:350-358 | gives the first registered plugin whose name matches without regard to case, and null exactly when none matches |
| PluginManagement.PluginManager.IsLoaded | proxy/Plugin.cc:111-117 | reports whether a plugin was already loaded from the path |
| PluginManagement.PluginManager.Load | proxy/Plugin.cc:97-177 | succeeds with no arguments; if `dlopen` fails it is fatal unless errors are passed over (then a failure); a missing `TSPluginInit` is a failure when errors are passed over and fatal otherwise; a plugin that does not register is fatal; on success a fresh registered record with the path and handle joins the head of the list, otherwise the list is unchanged; the thread's plugin is restored |
| PluginManagement.PluginManager.ProcessLine | proxy/Plugin.cc:268-336 | a blank or comment line loads nothing; any other line loads its expanded arguments with the outcome `Attempt` gives, and the list only changes on success |
| PluginManagement.PluginManager.Init | proxy/Plugin.cc:242-348 | fails when the configuration cannot be opened; otherwise it stops (the process would exit) at the first line whose load is fatal, and otherwise reports the last loading line's success, or true when no line loads; records are only added, never removed |
| PluginManagement.FatalHalts | proxy/Plugin.cc:129-172 | a fatal load on any later non-blank line stops the initialisation |
| PluginManagement.BlankLinesKeep | proxy/Plugin.cc:268-317 | blank and comment lines leave the result as it was |
| PluginManagement.LastLoadDecides | proxy/Plugin.cc:331-347 | when no line up to the last loading one is fatal, the result is whether that last load succeeded |
| Translator.HeaderLinesSnoc | tests/tools/traffic-replay/translator.py:15-16 | each header adds its own line to the end of the block |
| Translator.CondenseHeaders | tests/tools/traffic-replay/translator.py:12-20 | the loop builds the CRLF-framed block of header lines |
| Translator.CondensedLength | tests/tools/traffic-replay/translator.py:12-20 | the block is four characters longer than its header lines |
| Translator.HeaderLinesLength | tests/tools/traffic-replay/translator.py:15-16 | each header line takes its name, value and four separator characters |
| Translator.CondensedEmpty | tests/tools/traffic-replay/translator.py:12-20 | an empty header list gives two CRLFs |
| Translator.HeaderLinesRoundTrip | tests/tools/traffic-replay/translator.py:15-16 | header lines parse back to the header list when names have no colon and values no CR |
| Translator.CondensedRoundTrip | tests/tools/traffic-replay/translator.py:12-20 | the block starts and ends with CRLF, and its middle parses back to the header list |
| Translator.HeaderOf | tests/tools/traffic-replay/translator.py:16 | a header is read from a list of at least two items (or a string of at least two characters), and a list of two strings gives that name and value |
| Translator.HeadersOfItems | tests/tools/traffic-replay/translator.py:15-16 | a header list that is read has one header per item |
| Translator.HeadersOfItemsIff | tests/tools/traffic-replay/translator.py:15-16 | a header list is read exactly when every item reads as a header, and each is read in place |
| Translator.StringHeadersOnlyWhenEmpty | tests/tools/traffic-replay/translator.py:15-16 | a string passed as the header list gives a block only when it is empty |
| Translator.TranslateRecord | tests/tools/traffic-replay/translator.py:32-36 | a translated log is a session stamped with the clock reading, version "0.1", with one transaction whose uuid, timestamps and bodies are the log's own fields; a log is translated exactly when it is an object with all nine keys, string start lines and iterable header lists |
| Translator.TranslatedHeaders | tests/tools/traffic-replay/translator.py:72-80 | request and response headers are the start line followed by the block of the header list |
| Translator.HeaderTextRoundTrip | tests/tools/traffic-replay/translator.py:75 | the start line and the header list can be recovered from the headers written |
| Translator.StripExt | tests/tools/traffic-replay/translator.py:41 | the result is a prefix of the name; a name of four or more characters is the result followed by its last four; a shorter one gives the empty name |
| Translator.StripExtRoundTrip | tests/tools/traffic-replay/translator.py:41 | a file named stem plus a four-character extension gives back the stem |
| Translator.Run | tests/tools/traffic-replay/translator.py:28-89 | the worker takes files in queue order and never more than there are |
| Translator.RunWritesKept | tests/tools/traffic-replay/translator.py:28-89 | the files written are exactly the translations of the taken inputs that parsed, translated and are not the test-mode placeholder, in queue order, except the file taken at the test-mode cap, which is not translated |
| Translator.Translate | tests/tools/traffic-replay/translator.py:25-89 | one worker's outputs, the files it took and whether it raised, for one clock reading |
| Translator.Work | tests/tools/traffic-replay/translator.py:28-89 | the loop over the queue writes the outputs the worker definition gives, in order |
| Translator.TestModeCap | tests/tools/traffic-replay/translator.py:38-39 | in test mode at most 5000 sessions are written |
| Translator.DrainsQueue | tests/tools/traffic-replay/translator.py:28 | outside test mode a worker that does not raise takes every file in the queue |
| Translator.OutputsFromInputs | tests/tools/traffic-replay/translator.py:41-89 | every file written is the translation of a parsed input file, at the output path of that file's name |

## Left out

- Input and output: file descriptors, `open`, `mkdir`, `stat`, `close`, AIO submission, `readline` and the output streams. Where their outcome matters it is a parameter (`fd`, `accepted`, `opens`, the `LoadEnv` of each line), and a stream is a string the model appends to.
- The clock: the connection time of a session and the time stamp of a translation are parameters. `Translate` reads the clock once per run, whereas `time.time()` is read for each log.
- TrafficDump.SsnData: `aio_count` (`int`) and `write_offset` (`int64_t`) are unbounded integers; the model does not wrap them, since neither can reach its limit without that many writes or bytes.
- `ToInt32` takes the C++20 rule (modulo 2^32) for the conversion of an `int64_t` above `INT_MAX`; earlier standards leave it implementation-defined. The callers ignore the result.
- Concurrency: the mutexes of `SsnData`, the atomic sample pool size and the translator's thread pool. One worker drains the whole queue.
- Thread-local storage: `PluginContext::THREAD_KEY` is one `ThreadSlot` object that is passed around.
- `dlopen`, `dlsym`, the plugin's `TSPluginInit` and `TSPluginRegister`: what they do is given by a `LoadEnv`. The symbol lookup through `plugin_reg_current` is taken as a lookup in the library just opened.
- `Fatal`: the process exit is not modelled. `Load` reports `Fatal` where the source calls it, and `Init` stops there with `Halted`.
- `ElevateAccess`, `REC_ReadConfigInteger`, `api_init`, the records configuration and the plugins-loaded lifecycle hooks are not modelled.
- `ink_filepath_make` against `plugin_dir` is the `pluginPath` function of the manager.
- `PluginConfig.Expand`: the record lookup, with its string, float, integer and counter kinds, is the `lookup` function. The `%F` and `%ld` formatting and the warning are not modelled.
- `ParseRules::is_wslfcr` is taken as space, tab, LF and CR.
- ts/List.h is not part of this model. `DLL::push` is taken to insert at the head, so `find` returns the most recently loaded plugin of a given name.
- Lines of plugin.config are at most 1023 characters and contain no NUL. How `ink_file_fd_readline` splits longer lines is not modelled.
- `GlobalPluginInfo` is merged into `PluginInfo`. The destructor's release assertions and `dlclose` are not modelled.
- `FinalArgv` is not passed on to `Load`. The arguments given to the plugin's init are not modelled beyond `FinalArgv` itself.
- `SSLCertLookup::insert` and `find` have their bodies in SSLCertLookup.cc, which is not part of this model.
  - Which keys count as wildcards, and which wildcard covers which key, are the two functions of a `MatchRule`.
  - Inserting a key that is already taken returns -1 and leaves the table unchanged.
  - `find` by address takes the destination and an optional source endpoint, following the comment at lines 96-100.
- `ticket_block_free`, `ticket_block_alloc`, `ticket_block_create` and `ssl_create_ticket_keyblock` (lines 123-126) read key files and allocate memory; only the byte layout of the keys is modelled. `SSLCertContext` holds the key block by value, so its sharing is not modelled.
- `TrafficDump.Sampled`: a sample pool size of 0 is a division by zero in the source; the model requires a non-zero size.
- `collect_headers`, the host API calls that read transactions, sessions and client addresses, the UUID and the `std::to_string` of times: a transaction's fields are given as one string.
- The log directory, the client address sub-directory and the path built from them are not modelled; only the hex file name is.
- `TSPluginInit` of the traffic dump plugin (option parsing and hook registration) is not modelled.
- The escaper works on characters taken as bytes. C's signed `char` (bytes of 0x80 and above never escaped) gives the same output as treating every character above U+001F as plain.
- `json.load`, `json.dump`, `argparse` and file listing: an input arrives already parsed, or as a failure, and outputs are returned as path/session pairs. Failing to open an input file is not modelled. JSON numbers stay as parsed values.
- `KeyboardInterrupt` handling in `translate` is not modelled.
- tests/gold_tests/pluginTest/cert_update/cert_update.test.py drives a running server and is not modelled.
