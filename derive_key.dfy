/**
 * The `derive-key` command: reads a 24-word mnemonic from a file or from
 * standard input, derives the key on the fixed Ethereum path and writes it as
 * `0x`-prefixed lower-case hex to the output file.
 */
module DeriveKey {
  import opened Results
  import opened Text
  import Hex
  import Constants

  /** BIP-39 phrases for 256 bits of entropy have 24 words. */
  const MNEMONIC_WORD_COUNT := 24

  /** The path `execute` hands to the wallet builder. */
  const DERIVATION_PATH := "m/44'/60'/0'/0/0"

  /** A secp256k1 secret scalar as `to_bytes` gives it: 32 big-endian bytes. */
  type PrivateKey = k: seq<Hex.byte> | |k| == 32 witness seq(32, _ => 0)

  /**
   * The wallet library: the key for a phrase on a path, or a failure (an unknown
   * word, a bad checksum, a bad path). Being a function, it is deterministic.
   */
  type Deriver = (string, string) -> Option<PrivateKey>

  /** The ways `execute` fails; `Message` is the text `anyhow` reports. */
  datatype DeriveKeyError =
    | ReadMnemonicFile
    | ReadMnemonicInput
    | InvalidMnemonic(count: nat)
    | DerivationFailed
    | WriteKeyFile
  {
    /** The count check's message shows the count found, in decimal. */
    function Message(): (m: string)
      ensures InvalidMnemonic? ==> Contains(m, Decimal(count))
    {
      match this
      case ReadMnemonicFile => "Failed to read mnemonic file"
      case ReadMnemonicInput => "Failed to read mnemonic from input"
      case InvalidMnemonic(count) =>
        var m := INVALID_PREFIX + Decimal(count) + INVALID_SUFFIX;
        assert Decimal(count) <= m[|INVALID_PREFIX|..];
        m
      case DerivationFailed => "Failed to derive wallet from mnemonic. Check that the mnemonic is valid."
      case WriteKeyFile => "Failed to write private key file"
    }
  }

  const INVALID_PREFIX := "Invalid mnemonic: expected 24 words, got "
  const INVALID_SUFFIX := ". Please check your mnemonic phrase."

  /**
   * The count can be read back from the count check's message: the digits after
   * the fixed prefix, which the `.` of the suffix ends, denote it.
   */
  lemma InvalidMnemonicShowsCount(count: nat)
    ensures var m := InvalidMnemonic(count).Message();
      var k := |INVALID_PREFIX| + |Decimal(count)|;
      && k < |m| && m[k] == '.'
      && (forall i :: |INVALID_PREFIX| <= i < k ==> IsDigit(m[i]))
      && DecimalValue(m[|INVALID_PREFIX|..k]) == count
  {
    var m := InvalidMnemonic(count).Message();
    var d := Decimal(count);
    assert m == INVALID_PREFIX + d + INVALID_SUFFIX;
    assert m[|INVALID_PREFIX|..|INVALID_PREFIX| + |d|] == d;
    DecimalRoundTrip(count);
  }

  /** The word-count check: exactly 24 words, else an error carrying the count found. */
  function CheckWordCount(phrase: string): (r: Result<(), DeriveKeyError>)
    ensures r.Ok? <==> |Words(phrase)| == MNEMONIC_WORD_COUNT
    ensures r.Err? ==> r.error == InvalidMnemonic(|Words(phrase)|)
  {
    var count := |Words(phrase)|;
    if count != MNEMONIC_WORD_COUNT then Err(InvalidMnemonic(count)) else Ok(())
  }

  /** `format!("0x{}", hex::encode(bytes))`. */
  function KeyText(key: seq<Hex.byte>): (t: string)
    ensures |t| == 2 + 2 * |key|
    ensures t[..2] == "0x"
    ensures forall i :: 2 <= i < |t| ==> Hex.IsLowerHexDigit(t[i])
  {
    "0x" + Hex.Encode(key)
  }

  /** Reads key text back: the `0x` prefix, then hex. */
  function ParseKeyText(t: string): Option<seq<Hex.byte>> {
    if |t| >= 2 && t[..2] == "0x" then Hex.Decode(t[2..]) else None
  }

  /** The key text reads back as the key it was made from. */
  lemma KeyTextRoundTrip(key: seq<Hex.byte>)
    ensures ParseKeyText(KeyText(key)) == Some(key)
  {
    assert KeyText(key)[2..] == Hex.Encode(key);
    Hex.DecodeEncode(key);
  }

  /** A private key is written as 66 characters. */
  lemma PrivateKeyTextLength(key: PrivateKey)
    ensures |KeyText(key)| == 66
  {
  }

  /**
   * What `execute` makes of the text it read, before it writes anything: the
   * trimmed phrase must have 24 words and derive on the fixed path, and then
   * the key text is the file's contents.
   */
  function KeyFileContents(raw: string, derive: Deriver): (r: Result<string, DeriveKeyError>)
    ensures |Words(raw)| != MNEMONIC_WORD_COUNT ==> r == Err(InvalidMnemonic(|Words(raw)|))
    ensures |Words(raw)| == MNEMONIC_WORD_COUNT && derive(Trim(raw), DERIVATION_PATH).None? ==>
              r == Err(DerivationFailed)
    ensures |Words(raw)| == MNEMONIC_WORD_COUNT && derive(Trim(raw), DERIVATION_PATH).Some? ==>
              r == Ok(KeyText(derive(Trim(raw), DERIVATION_PATH).value))
    ensures r.Ok? ==>
              && |Words(raw)| == MNEMONIC_WORD_COUNT
              && derive(Trim(raw), DERIVATION_PATH).Some?
              && ParseKeyText(r.value).Some?
              && ParseKeyText(r.value).value == derive(Trim(raw), DERIVATION_PATH).value
              && |r.value| == 66
  {
    var phrase := Trim(raw);
    WordsIgnoreTrim(raw);
    match CheckWordCount(phrase)
    case Err(e) => Err(e)
    case Ok(_) =>
      match derive(phrase, DERIVATION_PATH)
      case None => Err(DerivationFailed)
      case Some(key) =>
        KeyTextRoundTrip(key);
        Ok(KeyText(key))
  }

  /**
   * Any 24 words pass the count check, however they are spaced: the outcome is
   * the library's verdict on the trimmed phrase.
   */
  lemma AnyTwentyFourWordsReachDerivation(ws: seq<string>, gaps: seq<string>, derive: Deriver)
    requires ValidWords(ws) && ValidGaps(ws, gaps) && |ws| == MNEMONIC_WORD_COUNT
    ensures var raw := Layout(ws, gaps);
      KeyFileContents(raw, derive)
        == match derive(Trim(raw), DERIVATION_PATH)
           case None => Err(DerivationFailed)
           case Some(key) => Ok(KeyText(key))
  {
    WordsOfLayout(ws, gaps);
  }

  /** Any other number of words is rejected with that number, however they are spaced. */
  lemma OtherWordCountsRejected(ws: seq<string>, gaps: seq<string>, derive: Deriver)
    requires ValidWords(ws) && ValidGaps(ws, gaps) && |ws| != MNEMONIC_WORD_COUNT
    ensures KeyFileContents(Layout(ws, gaps), derive) == Err(InvalidMnemonic(|ws|))
  {
    WordsOfLayout(ws, gaps);
  }

  /** The literal path `execute` uses is the default Ethereum BIP-44 path. */
  lemma DerivationPathIsDefault()
    ensures DERIVATION_PATH == Constants.DEFAULT_ETH_DERIVATION_PATH
    ensures DERIVATION_PATH == Constants.PathText(Constants.Bip44Path(Constants.ETH_COIN_TYPE, 0, 0, 0))
  {
    Constants.DefaultPathIsBip44Ethereum();
  }

  /** An effect of `execute` on the world. */
  datatype Effect = ReadFile(path: string) | ReadStdinLine | WriteFile(path: string, contents: string)

  /**
   * The file system and standard input as `execute` sees them, with the record
   * of the effects performed on them, in order.
   */
  class Environment {
    var files: map<string, string>
    /** The paths `fs::write` fails on. */
    const unwritable: set<string>
    /** The line standard input yields, or `None` when reading fails. */
    const stdin: Option<string>
    var effects: seq<Effect>

    constructor (files: map<string, string>, unwritable: set<string>, stdin: Option<string>)
      ensures this.files == files && this.unwritable == unwritable && this.stdin == stdin
      ensures effects == []
    {
      this.files := files;
      this.unwritable := unwritable;
      this.stdin := stdin;
      effects := [];
    }

    /** `fs::read_to_string`. */
    method ReadToString(path: string) returns (r: Option<string>)
      modifies this`effects
      ensures r == if path in files then Some(files[path]) else None
      ensures effects == old(effects) + [ReadFile(path)]
    {
      r := if path in files then Some(files[path]) else None;
      effects := effects + [ReadFile(path)];
    }

    /** `io::stdin().read_line` into an empty buffer. */
    method ReadLine() returns (r: Option<string>)
      modifies this`effects
      ensures r == stdin
      ensures effects == old(effects) + [ReadStdinLine]
    {
      r := stdin;
      effects := effects + [ReadStdinLine];
    }

    /**
     * `fs::write`: on success the file holds exactly `contents`. On failure no
     * other file changes, but the target may be left missing, empty or partly
     * written, since the file is created and truncated before the bytes go out.
     */
    method Write(path: string, contents: string) returns (ok: bool)
      modifies this`files, this`effects
      ensures ok == (path !in unwritable)
      ensures ok ==> files == old(files)[path := contents]
      ensures !ok ==> files - {path} == old(files) - {path}
      ensures effects == old(effects) + [WriteFile(path, contents)]
    {
      ok := path !in unwritable;
      if ok {
        files := files[path := contents];
      }
      effects := effects + [WriteFile(path, contents)];
    }
  }

  /**
   * Where the phrase comes from: the named file, else a line of standard input.
   * It fails exactly when the chosen source cannot be read, with that source's error.
   */
  function MnemonicSource(files: map<string, string>, stdin: Option<string>, mnemonicFile: Option<string>)
    : (r: Result<string, DeriveKeyError>)
    ensures mnemonicFile.Some? ==> (r.Ok? <==> mnemonicFile.value in files)
    ensures mnemonicFile.Some? && r.Ok? ==> r.value == files[mnemonicFile.value]
    ensures mnemonicFile.Some? && r.Err? ==> r.error == ReadMnemonicFile
    ensures mnemonicFile.None? ==> (r.Ok? <==> stdin.Some?)
    ensures mnemonicFile.None? && r.Ok? ==> r.value == stdin.value
    ensures mnemonicFile.None? && r.Err? ==> r.error == ReadMnemonicInput
  {
    match mnemonicFile
    case Some(path) => if path in files then Ok(files[path]) else Err(ReadMnemonicFile)
    case None => if stdin.Some? then Ok(stdin.value) else Err(ReadMnemonicInput)
  }

  /** A named file is the only source: standard input is then never consulted. */
  lemma NamedFileIgnoresStdin(files: map<string, string>, stdin1: Option<string>, stdin2: Option<string>, path: string)
    ensures MnemonicSource(files, stdin1, Some(path)) == MnemonicSource(files, stdin2, Some(path))
  {
  }

  /** The read that takes the phrase in. */
  function SourceEffect(mnemonicFile: Option<string>): Effect {
    if mnemonicFile.Some? then ReadFile(mnemonicFile.value) else ReadStdinLine
  }

  /** The contents `execute` will write, or the error that stops it before writing. */
  function PlannedKeyFile(files: map<string, string>, stdin: Option<string>, mnemonicFile: Option<string>,
                          derive: Deriver): Result<string, DeriveKeyError>
  {
    match MnemonicSource(files, stdin, mnemonicFile)
    case Err(e) => Err(e)
    case Ok(raw) => KeyFileContents(raw, derive)
  }

  /**
   * `execute`: read, validate, derive, and only then write. Exactly one read
   * happens; a write happens only when everything before it succeeded, and it
   * is the last effect.
   */
  method Execute(env: Environment, mnemonicFile: Option<string>, output: string, derive: Deriver)
    returns (r: Result<(), DeriveKeyError>)
    modifies env
    ensures var plan := PlannedKeyFile(old(env.files), env.stdin, mnemonicFile, derive);
            var read := old(env.effects) + [SourceEffect(mnemonicFile)];
      match plan
      case Err(e) =>
        r == Err(e) && env.files == old(env.files) && env.effects == read
      case Ok(contents) =>
        env.effects == read + [WriteFile(output, contents)]
        && (r.Ok? <==> output !in env.unwritable)
        && (r.Ok? ==> env.files == old(env.files)[output := contents])
        && (r.Err? ==> r.error == WriteKeyFile && env.files - {output} == old(env.files) - {output})
  {
    var phrase: string;
    if mnemonicFile.Some? {
      var text := env.ReadToString(mnemonicFile.value);
      if text.None? {
        return Err(ReadMnemonicFile);
      }
      phrase := Trim(text.value);
    } else {
      var line := env.ReadLine();
      if line.None? {
        return Err(ReadMnemonicInput);
      }
      phrase := Trim(line.value);
    }

    var wordCount := |Words(phrase)|;
    if wordCount != MNEMONIC_WORD_COUNT {
      return Err(InvalidMnemonic(wordCount));
    }

    var key := derive(phrase, DERIVATION_PATH);
    if key.None? {
      return Err(DerivationFailed);
    }

    var keyText := KeyText(key.value);
    var ok := env.Write(output, keyText);
    if !ok {
      return Err(WriteKeyFile);
    }
    return Ok(());
  }
}
