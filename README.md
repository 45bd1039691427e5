# cold-sign core in Dafny

`cold-sign` is a command-line tool for air-gapped Ethereum signing. This
project models two pieces of it and proves properties of them.

* **RPC endpoint resolution** (`rpc.dfy`, module `Rpc`). `prepare` needs a
  JSON-RPC endpoint. It gets one either as a direct `--rpc-url`, or as a
  `--network` name plus an `--infura-key`, which is turned into
  `https://<host>.infura.io/v3/<key>`. Network names are matched after
  lower-casing. Each endpoint accepts one or more names (`ethereum` for
  `mainnet`, `polygon` for `polygon-mainnet`, …). An unknown name fails with
  an error that quotes it.
* **`derive-key`** (`derive_key.dfy`, module `DeriveKey`). This command does
  the following, in order:
  1. It reads a mnemonic phrase from a file, or one line from standard input.
  2. It trims the phrase and requires exactly 24 white-space separated words.
  3. It asks the wallet library for the key on the fixed path `m/44'/60'/0'/0/0`.
  4. It writes the key to the output file, as `0x` followed by 64 lower-case
     hex digits.

  Writing is the last effect. Nothing is written unless every earlier step
  succeeded. The file system and standard input are an `Environment` object.
  Its methods update the files and append to a trace of effects. `Execute`
  is proved against pure functions of the old state (`PlannedKeyFile`,
  `KeyFileContents`).

Supporting modules:
* `Text` (`text.dfy`): Rust's `char::is_whitespace` (the Unicode White_Space
  set), `trim` and `split_whitespace`.
* `Hex` (`hex.dfy`): the `hex` crate's encoder and decoder.
* `Constants` (`constants.dfy`): the default Ethereum derivation path and its
  BIP-44 reading.
* `Results` (`results.dfy`): `Option` and `Result`.

The wallet library (`MnemonicBuilder`) is a parameter of type
`Deriver = (string, string) -> Option<PrivateKey>`. The model is exact about
which phrase and which path reach it, and about what happens with its answer.

## Model

| member | source | states |
|---|---|---|
| Rpc.NetworkNamed | src/utils/rpc.rs:5-24 | a lower-case name selects an endpoint only if it is one of that endpoint's accepted names; when no arm matches, the name belongs to no endpoint |
| Rpc.NamesSelectTheirNetwork | src/utils/rpc.rs:6-23 | every accepted name of an endpoint selects exactly that endpoint, so the name table has no overlaps |
| Rpc.BuildInfuraUrl | src/utils/rpc.rs:4-32 | succeeds iff the lower-cased name is accepted by some endpoint; then the URL is that endpoint's Infura URL with the key; otherwise the error is UnsupportedNetwork carrying the name as given |
| Rpc.RpcError.Message | src/utils/rpc.rs:25-45 | only the unsupported-network message starts with `Unsupported network: '`, so the two errors are told apart, and it contains the rejected name |
| Rpc.InfuraUrl | src/utils/rpc.rs:6-23 | an Infura URL starts with `https://`, has the endpoint's host right after it and ends with the key unchanged |
| Rpc.ResolveRpcUrl | src/utils/rpc.rs:35-47 | a direct URL wins unconditionally; else network and key together give the Infura URL; else the missing-endpoint error |
| Rpc.ToLower | src/utils/rpc.rs:5 | lower-casing keeps the length, turns each ASCII capital into its small letter, keeps every other character, and leaves no ASCII capital behind |
| Rpc.ToLowerIdempotent | src/utils/rpc.rs:5 | lower-casing twice is lower-casing once |
| Rpc.HostIsAName | src/utils/rpc.rs:6-23 | each endpoint accepts its own Infura host name |
| Rpc.CaseInsensitive | src/utils/rpc.rs:5 | a name and its lower-cased form are accepted or rejected together, and give the same URL when accepted |
| Rpc.AliasesAgree | src/utils/rpc.rs:6-23 | any two names of one endpoint, in any case, give the same URL |
| Rpc.MainnetAliases | src/utils/rpc.rs:6 | `Ethereum` and `mainnet` both give the mainnet URL |
| Rpc.PolygonAliases | src/utils/rpc.rs:10 | `polygon` and `polygon-mainnet` give the same URL |
| Rpc.AvalancheAliases | src/utils/rpc.rs:18-20 | `avalanche`, `avalanche-c-chain` and `avalanche-mainnet` give the same URL |
| Rpc.LineaAliases | src/utils/rpc.rs:22 | `linea` and `linea-mainnet` give the same URL |
| Rpc.UrlShape | src/utils/rpc.rs:6-23 | every built URL is `https://<host>.infura.io/v3/<key>` for some endpoint, ends with the key verbatim and starts with `https://` |
| Rpc.UrlDeterminesHost | src/utils/rpc.rs:6-23 | with the same key, equal URLs have equal hosts |
| Rpc.DistinctNetworksDistinctUrls | src/utils/rpc.rs:6-23 | with the same key, two different endpoints never share a URL |
| Rpc.UnsupportedErrorQuotesName | src/utils/rpc.rs:24-29 | a rejected name yields UnsupportedNetwork of that name, whose message contains the name verbatim |
| Text.TrimStart | src/commands/derive_key.rs:16 | the result is a suffix of the input that does not start with white space |
| Text.TrimEnd | src/commands/derive_key.rs:16 | the result is a prefix of the input that does not end with white space |
| Text.Trim | src/commands/derive_key.rs:16 | the trimmed phrase is a slice of the input with only white space cut off before and after it, and it neither starts nor ends with white space |
| Text.TrimStartDropsWhitespace | src/commands/derive_key.rs:16 | everything `trim_start` removes is white space |
| Text.TrimEndDropsWhitespace | src/commands/derive_key.rs:29 | everything `trim_end` removes is white space |
| Text.WordLength | src/commands/derive_key.rs:33 | the leading run holds no white space and stops at white space or at the end |
| Text.WordsAreWords | src/commands/derive_key.rs:33 | every word `split_whitespace` yields is non-empty and free of white space |
| Text.WordLengthAppend | src/commands/derive_key.rs:33 | text appended after a white-space boundary does not change the first word |
| Text.WordsAppend | src/commands/derive_key.rs:33 | splitting text joined at white space gives the words of each part, concatenated |
| Text.WordsAppendAfterSpace | src/commands/derive_key.rs:33 | the same, when the first part starts with white space |
| Text.WordsAppendAfterWord | src/commands/derive_key.rs:33 | the same, when the first part starts with a word |
| Text.WordsOfWhitespace | src/commands/derive_key.rs:33 | all-white-space text has no words |
| Text.WordsOfWord | src/commands/derive_key.rs:33 | a single non-empty run without white space is one word |
| Text.WordsTrimStart | src/commands/derive_key.rs:33 | `trim_start` does not change the words |
| Text.WordsTrimEnd | src/commands/derive_key.rs:33 | `trim_end` does not change the words |
| Text.WordsIgnoreTrim | src/commands/derive_key.rs:29-33 | trimming before counting does not change the words or their number |
| Text.WordsOfLayout | src/commands/derive_key.rs:33 | characterises `Words`, the model of `split_whitespace`: any words laid out with any white-space gaps, non-empty between words, split back into exactly those words |
| Text.AsciiWhitespace | src/commands/derive_key.rs:33 | among ASCII characters, `IsWhitespace` (`char::is_whitespace`) holds exactly for the space and tab to carriage return |
| Text.Decimal | src/commands/derive_key.rs:36-37 | a count is written as decimal digits with no leading zero |
| Text.DecimalRoundTrip | src/commands/derive_key.rs:36-37 | the decimal text of a count denotes that count |
| Text.WordsOfGapAndWord | src/commands/derive_key.rs:33 | a white-space gap, a word and a white-space-led rest split into that word followed by the words of the rest |
| Hex.Encode | src/commands/derive_key.rs:57 | two lower-case hex digits per byte |
| Hex.Decode | src/commands/derive_key.rs:57 | decoded bytes are half as many as the digits |
| Hex.DigitValue | src/commands/derive_key.rs:57 | a digit's value is below 16 |
| Hex.DigitRoundTrip | src/commands/derive_key.rs:57 | the digit written for a nibble reads back as that nibble |
| Hex.DigitOfValue | src/commands/derive_key.rs:57 | a lower-case digit is written back as itself |
| Hex.EncodeCons | src/commands/derive_key.rs:57 | encoding a byte built from two nibbles writes those nibbles' digits first |
| Hex.DecodeEncode | src/commands/derive_key.rs:57 | decoding the encoding gives back the bytes |
| Hex.EncodeDecode | src/commands/derive_key.rs:57 | lower-case hex text that decodes is exactly the encoding of what it decodes to |
| Constants.PathTextAppend | src/constants.rs:1-9 | appending a step appends its `/step` text |
| Constants.Bip44PathText | src/constants.rs:1-9 | a BIP-44 path is written `m/purpose'/coin'/account'/change/index` |
| Constants.DefaultStepTexts | src/constants.rs:4-8 | the default path's steps read `44'`, `60'`, `0'` and `0` |
| Constants.DefaultPathIsBip44Ethereum | src/constants.rs:9 | the default path is purpose 44, coin type 60 (Ether), account 0, external chain, address 0 |
| DeriveKey.DeriveKeyError.Message | src/commands/derive_key.rs:34-38 | the count check's message contains the count found, in decimal |
| DeriveKey.InvalidMnemonicShowsCount | src/commands/derive_key.rs:34-38 | the count can be read back from that message: the digits after its fixed prefix, ended by `.`, denote the count |
| DeriveKey.CheckWordCount | src/commands/derive_key.rs:32-39 | passes iff the phrase has exactly 24 words; otherwise the error carries the count found |
| DeriveKey.KeyText | src/commands/derive_key.rs:55-57 | the key text is `0x` followed by two lower-case hex digits per byte |
| DeriveKey.KeyTextRoundTrip | src/commands/derive_key.rs:57 | the written key text parses back to the key |
| DeriveKey.PrivateKeyTextLength | src/commands/derive_key.rs:56-57 | a 32-byte key is written as 66 characters |
| DeriveKey.KeyFileContents | src/commands/derive_key.rs:16-57 | a phrase with other than 24 words is rejected with its count; with 24 words, a derivation failure gives DerivationFailed; otherwise the contents are the key text of the derived key, which parses back to that key and is 66 characters long |
| DeriveKey.AnyTwentyFourWordsReachDerivation | src/commands/derive_key.rs:29-57 | any 24 words, however spaced, reach the wallet library, and its verdict alone decides the outcome |
| DeriveKey.OtherWordCountsRejected | src/commands/derive_key.rs:32-39 | any other number of words, however spaced, is rejected with that number |
| DeriveKey.DerivationPathIsDefault | src/commands/derive_key.rs:48 | the literal path used is the default Ethereum BIP-44 path |
| DeriveKey.MnemonicSource | src/commands/derive_key.rs:12-30 | a named file is read, else a line of standard input; it fails exactly when the chosen source cannot be read, with that source's error |
| DeriveKey.NamedFileIgnoresStdin | src/commands/derive_key.rs:12-17 | when a file is named, standard input does not affect the phrase |
| DeriveKey.Environment.constructor | src/commands/derive_key.rs:8 | starts with the given files, unwritable paths and standard input, and no effects |
| DeriveKey.Environment.ReadToString | src/commands/derive_key.rs:14-15 | returns the file's contents or nothing, and records the read |
| DeriveKey.Environment.ReadLine | src/commands/derive_key.rs:24-27 | returns the input line or nothing, and records the read |
| DeriveKey.Environment.Write | src/commands/derive_key.rs:61-62 | succeeds exactly when the path is writable, and then the file holds exactly the contents. A failure changes no other file but may leave the target missing, empty or partial, because `fs::write` truncates before writing. The write is recorded |
| DeriveKey.Execute | src/commands/derive_key.rs:8-73 | exactly one read of the chosen source. Any failure before the write returns that error and leaves files unchanged with no write. Otherwise the last effect is one write of the planned key text, and the result is Ok iff that write succeeds; a failed write changes no file but the output file |

## Left out

- Rpc.ToLower: `str::to_lowercase` is Unicode-aware; the model lower-cases ASCII letters only. Exactly one non-ASCII character lower-cases into the alphabet of the network names: the Kelvin sign U+212A, which becomes `k`. So the model rejects `holesky` spelt with a Kelvin sign, which the original accepts; no other name is affected.
- Everything `derive-key` prints (the `println!`/`print!` calls at derive_key.rs:9, 13, 19-21, 41, 44, 52-53, 60 and 64-71), including the prompt, and the `stdout` flush at derive_key.rs:22. Printing has no effect on the files, and a failing flush is not modelled.
- The `async` runtime. `execute` awaits nothing.
- The BIP-39 wordlist, checksum and BIP-32 derivation of the `ethers` wallet library. They are the `Deriver` parameter, and the secp256k1 address shown on screen is left out with them.
- DeriveKey.KeyFileContents: a failure to parse the derivation path (derive_key.rs:48, the `?` without context) is merged into DerivationFailed. The path is a fixed valid constant, so only the error text would differ.
- DeriveKey.Environment.ReadLine: `read_line` keeps the line terminator and stops at the first newline. The model takes the line as given, because the trim that follows removes the terminator.
- The command-line dispatch in `main.rs`, including the call site of `derive_key::execute`, is not part of this model.
- The `prepare`, `prepare-interactive`, `sign`, `broadcast` and `generate-mnemonic` commands, the contract helpers and the serialised output types are not part of this model.
