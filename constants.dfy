/** Fixed values shared by the commands. */
module Constants {
  import Text

  /** The default Ethereum BIP-44 derivation path. */
  const DEFAULT_ETH_DERIVATION_PATH := "m/44'/60'/0'/0/0"

  /** One step of a BIP-32 path; a hardened step is written with a trailing `'`. */
  datatype ChildNumber = Hardened(index: nat) | Normal(index: nat)

  /** BIP-44 purpose, and the SLIP-44 coin type of Ether. */
  const BIP44_PURPOSE := 44
  const ETH_COIN_TYPE := 60

  /** `m / purpose' / coin_type' / account' / change / address_index` of BIP-44. */
  function Bip44Path(coinType: nat, account: nat, change: nat, addressIndex: nat): seq<ChildNumber> {
    [Hardened(BIP44_PURPOSE), Hardened(coinType), Hardened(account), Normal(change), Normal(addressIndex)]
  }

  function StepText(c: ChildNumber): string {
    match c
    case Hardened(i) => Text.Decimal(i) + "'"
    case Normal(i) => Text.Decimal(i)
  }

  /** The textual form of a path: `m` followed by `/step` for each step. */
  function PathText(path: seq<ChildNumber>): string {
    if path == [] then "m" else PathText(path[..|path| - 1]) + "/" + StepText(path[|path| - 1])
  }

  /** Appending a step appends its `/step` text. */
  lemma PathTextAppend(path: seq<ChildNumber>, c: ChildNumber)
    ensures PathText(path + [c]) == PathText(path) + "/" + StepText(c)
  {
    assert (path + [c])[..|path|] == path;
  }

  /** A BIP-44 path is written `m/purpose'/coin_type'/account'/change/address_index`. */
  lemma Bip44PathText(coinType: nat, account: nat, change: nat, addressIndex: nat)
    ensures PathText(Bip44Path(coinType, account, change, addressIndex))
         == "m" + "/" + StepText(Hardened(BIP44_PURPOSE)) + "/" + StepText(Hardened(coinType)) + "/"
            + StepText(Hardened(account)) + "/" + StepText(Normal(change)) + "/" + StepText(Normal(addressIndex))
  {
    var a, b, c, d, e := Hardened(BIP44_PURPOSE), Hardened(coinType), Hardened(account), Normal(change), Normal(addressIndex);
    PathTextAppend([], a);
    PathTextAppend([a], b);
    PathTextAppend([a, b], c);
    PathTextAppend([a, b, c], d);
    PathTextAppend([a, b, c, d], e);
    assert [] + [a] == [a] && [a] + [b] == [a, b] && [a, b] + [c] == [a, b, c];
    assert [a, b, c] + [d] == [a, b, c, d] && [a, b, c, d] + [e] == Bip44Path(coinType, account, change, addressIndex);
  }

  /** The text of the steps the default path is made of. */
  lemma DefaultStepTexts()
    ensures StepText(Hardened(BIP44_PURPOSE)) == "44'" && StepText(Hardened(ETH_COIN_TYPE)) == "60'"
    ensures StepText(Hardened(0)) == "0'" && StepText(Normal(0)) == "0"
  {
    assert Text.Decimal(4) == "4" && Text.Decimal(6) == "6" && Text.Decimal(0) == "0";
  }

  /**
   * The default path is account 0, external chain, first address of the
   * Ethereum coin type under BIP-44.
   */
  lemma DefaultPathIsBip44Ethereum()
    ensures PathText(Bip44Path(ETH_COIN_TYPE, 0, 0, 0)) == DEFAULT_ETH_DERIVATION_PATH
  {
    Bip44PathText(ETH_COIN_TYPE, 0, 0, 0);
    DefaultStepTexts();
    assert "m" + "/" + "44'" + "/" + "60'" + "/" + "0'" + "/" + "0" + "/" + "0" == DEFAULT_ETH_DERIVATION_PATH;
  }
}
