/**
 * Resolution of the JSON-RPC endpoint used by `prepare`: a direct URL, or a
 * named network plus an Infura API key turned into an Infura URL.
 */
module Rpc {
  import opened Results
  import Text

  /** The two errors the resolution can raise; `Message` gives their `anyhow` text. */
  datatype RpcError = UnsupportedNetwork(network: string) | MissingEndpoint {
    /** The unsupported-network message, and only it, starts with its prefix and quotes the name. */
    function Message(): (m: string)
      ensures UnsupportedNetwork? <==> UNSUPPORTED_PREFIX <= m
      ensures UnsupportedNetwork? ==> Text.Contains(m, network)
    {
      match this
      case UnsupportedNetwork(network) =>
        var m := UNSUPPORTED_PREFIX + network + UNSUPPORTED_SUFFIX;
        assert network <= m[|UNSUPPORTED_PREFIX|..];
        m
      case MissingEndpoint =>
        assert UNSUPPORTED_PREFIX[0] == 'U' && MISSING_ENDPOINT[0] == 'M';
        MISSING_ENDPOINT
    }
  }

  const MISSING_ENDPOINT := "Must specify either --rpc-url" + " OR (--network and --infura-key)"
  const UNSUPPORTED_PREFIX := "Unsupported network: '"
  const UNSUPPORTED_SUFFIX := "'. Supported networks: mainnet, sepolia, goerli, holesky, polygon, polygon-amoy, arbitrum, arbitrum-sepolia, optimism, optimism-sepolia, base, base-sepolia, avalanche, avalanche-fuji, linea, linea-sepolia"

  type UrlResult = Result<string, RpcError>

  /** ASCII lower-casing of one character. */
  function LowerChar(c: char): char {
    if 'A' <= c <= 'Z' then (c as int + 32) as char else c
  }

  /**
   * `str::to_lowercase`, restricted to ASCII letters: every capital becomes its
   * small letter, 32 code points on, and every other character is kept.
   */
  function ToLower(s: string): (r: string)
    ensures |r| == |s|
    ensures forall i :: 0 <= i < |s| && 'A' <= s[i] <= 'Z' ==> r[i] as int == s[i] as int + 32
    ensures forall i :: 0 <= i < |s| && !('A' <= s[i] <= 'Z') ==> r[i] == s[i]
    ensures forall i :: 0 <= i < |r| ==> !('A' <= r[i] <= 'Z')
  {
    seq(|s|, i requires 0 <= i < |s| => LowerChar(s[i]))
  }

  /** The Infura endpoints the tool knows, one per distinct URL. */
  datatype Network =
    | Mainnet | Sepolia | Goerli | Holesky
    | PolygonMainnet | PolygonAmoy
    | ArbitrumMainnet | ArbitrumSepolia
    | OptimismMainnet | OptimismSepolia
    | BaseMainnet | BaseSepolia
    | AvalancheMainnet | AvalancheFuji
    | LineaMainnet | LineaSepolia

  /** The Infura sub-domain of each endpoint. */
  function Host(n: Network): string {
    match n
    case Mainnet => "mainnet"
    case Sepolia => "sepolia"
    case Goerli => "goerli"
    case Holesky => "holesky"
    case PolygonMainnet => "polygon-mainnet"
    case PolygonAmoy => "polygon-amoy"
    case ArbitrumMainnet => "arbitrum-mainnet"
    case ArbitrumSepolia => "arbitrum-sepolia"
    case OptimismMainnet => "optimism-mainnet"
    case OptimismSepolia => "optimism-sepolia"
    case BaseMainnet => "base-mainnet"
    case BaseSepolia => "base-sepolia"
    case AvalancheMainnet => "avalanche-mainnet"
    case AvalancheFuji => "avalanche-fuji"
    case LineaMainnet => "linea-mainnet"
    case LineaSepolia => "linea-sepolia"
  }

  /** The lower-case names accepted for each endpoint (its host and its aliases). */
  function Names(n: Network): set<string> {
    match n
    case Mainnet => {"mainnet", "ethereum"}
    case Sepolia => {"sepolia"}
    case Goerli => {"goerli"}
    case Holesky => {"holesky"}
    case PolygonMainnet => {"polygon", "polygon-mainnet"}
    case PolygonAmoy => {"polygon-amoy"}
    case ArbitrumMainnet => {"arbitrum", "arbitrum-mainnet"}
    case ArbitrumSepolia => {"arbitrum-sepolia"}
    case OptimismMainnet => {"optimism", "optimism-mainnet"}
    case OptimismSepolia => {"optimism-sepolia"}
    case BaseMainnet => {"base", "base-mainnet"}
    case BaseSepolia => {"base-sepolia"}
    case AvalancheMainnet => {"avalanche", "avalanche-mainnet", "avalanche-c-chain"}
    case AvalancheFuji => {"avalanche-fuji"}
    case LineaMainnet => {"linea", "linea-mainnet"}
    case LineaSepolia => {"linea-sepolia"}
  }

  /**
   * `format!("https://{host}.infura.io/v3/{key}")`: an `https` URL whose host
   * starts right after the scheme and whose path ends with the key unchanged.
   */
  function InfuraUrl(n: Network, apiKey: string): (r: string)
    ensures "https://" <= r && 8 + |Host(n)| <= |r| && r[8..8 + |Host(n)|] == Host(n)
    ensures |apiKey| <= |r| && r[|r| - |apiKey|..] == apiKey
  {
    "https://" + Host(n) + ".infura.io/v3/" + apiKey
  }

  /**
   * The arms of the `match` in `build_infura_url`: the endpoint a lower-case
   * name selects, if any.
   */
  function NetworkNamed(name: string): (r: Option<Network>)
    ensures r.Some? ==> name in Names(r.value)
    ensures r.None? ==> forall n :: name !in Names(n)
  {
    match name
    case "mainnet" | "ethereum" => Some(Mainnet)
    case "sepolia" => Some(Sepolia)
    case "goerli" => Some(Goerli)
    case "holesky" => Some(Holesky)
    case "polygon" | "polygon-mainnet" => Some(PolygonMainnet)
    case "polygon-amoy" => Some(PolygonAmoy)
    case "arbitrum" | "arbitrum-mainnet" => Some(ArbitrumMainnet)
    case "arbitrum-sepolia" => Some(ArbitrumSepolia)
    case "optimism" | "optimism-mainnet" => Some(OptimismMainnet)
    case "optimism-sepolia" => Some(OptimismSepolia)
    case "base" | "base-mainnet" => Some(BaseMainnet)
    case "base-sepolia" => Some(BaseSepolia)
    case "avalanche" | "avalanche-mainnet" | "avalanche-c-chain" => Some(AvalancheMainnet)
    case "avalanche-fuji" => Some(AvalancheFuji)
    case "linea" | "linea-mainnet" => Some(LineaMainnet)
    case "linea-sepolia" => Some(LineaSepolia)
    case _ => None
  }

  /** Each accepted name selects its own endpoint, so no name belongs to two endpoints. */
  lemma NamesSelectTheirNetwork(n: Network, name: string)
    requires name in Names(n)
    ensures NetworkNamed(name) == Some(n)
  {
    match n
    case Mainnet =>
    case Sepolia =>
    case Goerli =>
    case Holesky =>
    case PolygonMainnet =>
    case PolygonAmoy =>
    case ArbitrumMainnet =>
    case ArbitrumSepolia =>
    case OptimismMainnet =>
    case OptimismSepolia =>
    case BaseMainnet =>
    case BaseSepolia =>
    case AvalancheMainnet =>
    case AvalancheFuji =>
    case LineaMainnet =>
    case LineaSepolia =>
  }

  lemma NamesSelectTheirNetworks(name: string)
    ensures forall n :: name in Names(n) ==> NetworkNamed(name) == Some(n)
  {
    forall n | name in Names(n) {
      NamesSelectTheirNetwork(n, name);
    }
  }

  /**
   * `build_infura_url`: maps a network name, compared after lower-casing, to
   * its Infura URL with the key appended unchanged; any other name is an error
   * that quotes the name as given.
   */
  function BuildInfuraUrl(network: string, apiKey: string): (r: UrlResult)
    ensures r.Ok? <==> exists n :: ToLower(network) in Names(n)
    ensures forall n :: ToLower(network) in Names(n) ==> r == Ok(InfuraUrl(n, apiKey))
    ensures r.Err? ==> r.error == UnsupportedNetwork(network)
  {
    NamesSelectTheirNetworks(ToLower(network));
    match NetworkNamed(ToLower(network))
    case Some(n) => Ok(InfuraUrl(n, apiKey))
    case None => Err(UnsupportedNetwork(network))
  }

  /**
   * `resolve_rpc_url`: a direct URL wins whatever else is given; otherwise a
   * network and a key together select an Infura URL; anything less is an error.
   */
  function ResolveRpcUrl(rpcUrl: Option<string>, network: Option<string>, infuraKey: Option<string>): (r: UrlResult)
    ensures rpcUrl.Some? ==> r == Ok(rpcUrl.value)
    ensures rpcUrl.None? && network.Some? && infuraKey.Some? ==> r == BuildInfuraUrl(network.value, infuraKey.value)
    ensures rpcUrl.None? && (network.None? || infuraKey.None?) ==> r == Err(MissingEndpoint)
  {
    if rpcUrl.Some? then Ok(rpcUrl.value)
    else if network.Some? && infuraKey.Some? then BuildInfuraUrl(network.value, infuraKey.value)
    else Err(MissingEndpoint)
  }

  lemma ToLowerIdempotent(s: string)
    ensures ToLower(ToLower(s)) == ToLower(s)
  {
  }

  /** Every endpoint's own host is one of its accepted names. */
  lemma HostIsAName(n: Network)
    ensures Host(n) in Names(n)
  {
  }

  /**
   * Matching ignores case: a name and its lower-cased form are accepted or
   * rejected together and, when accepted, give the same URL. (The errors
   * differ, since each quotes the name it was given.)
   */
  lemma CaseInsensitive(network: string, apiKey: string)
    ensures BuildInfuraUrl(network, apiKey).Ok? == BuildInfuraUrl(ToLower(network), apiKey).Ok?
    ensures BuildInfuraUrl(network, apiKey).Ok? ==>
              BuildInfuraUrl(network, apiKey) == BuildInfuraUrl(ToLower(network), apiKey)
  {
    ToLowerIdempotent(network);
  }

  /** Names of one endpoint, written in any case, resolve to the same URL. */
  lemma AliasesAgree(n: Network, a: string, b: string, apiKey: string)
    requires ToLower(a) in Names(n) && ToLower(b) in Names(n)
    ensures BuildInfuraUrl(a, apiKey) == BuildInfuraUrl(b, apiKey) == Ok(InfuraUrl(n, apiKey))
  {
  }

  /** `ethereum` is an alias of `mainnet`, in any case. */
  lemma MainnetAliases(apiKey: string)
    ensures BuildInfuraUrl("Ethereum", apiKey) == BuildInfuraUrl("mainnet", apiKey) == Ok(InfuraUrl(Mainnet, apiKey))
  {
    assert ToLower("Ethereum") == "ethereum";
    assert ToLower("mainnet") == "mainnet";
    AliasesAgree(Mainnet, "Ethereum", "mainnet", apiKey);
  }

  /** `polygon` is an alias of `polygon-mainnet`. */
  lemma PolygonAliases(apiKey: string)
    ensures BuildInfuraUrl("polygon", apiKey) == BuildInfuraUrl("polygon-mainnet", apiKey)
  {
    assert ToLower("polygon") == "polygon";
    assert ToLower("polygon-mainnet") == "polygon-mainnet";
    AliasesAgree(PolygonMainnet, "polygon", "polygon-mainnet", apiKey);
  }

  /** `avalanche` and `avalanche-c-chain` are aliases of `avalanche-mainnet`. */
  lemma AvalancheAliases(apiKey: string)
    ensures BuildInfuraUrl("avalanche", apiKey) == BuildInfuraUrl("avalanche-mainnet", apiKey)
    ensures BuildInfuraUrl("avalanche-c-chain", apiKey) == BuildInfuraUrl("avalanche-mainnet", apiKey)
  {
    assert ToLower("avalanche") == "avalanche";
    assert ToLower("avalanche-c-chain") == "avalanche-c-chain";
    assert ToLower("avalanche-mainnet") == "avalanche-mainnet";
    AliasesAgree(AvalancheMainnet, "avalanche", "avalanche-mainnet", apiKey);
    AliasesAgree(AvalancheMainnet, "avalanche-c-chain", "avalanche-mainnet", apiKey);
  }

  /** `linea` is an alias of `linea-mainnet`. */
  lemma LineaAliases(apiKey: string)
    ensures BuildInfuraUrl("linea", apiKey) == BuildInfuraUrl("linea-mainnet", apiKey)
  {
    assert ToLower("linea") == "linea";
    assert ToLower("linea-mainnet") == "linea-mainnet";
    AliasesAgree(LineaMainnet, "linea", "linea-mainnet", apiKey);
  }

  /**
   * Every URL built has the form `https://<host>.infura.io/v3/<key>`, with the
   * key (even an empty one) as a verbatim suffix.
   */
  lemma UrlShape(network: string, apiKey: string)
    requires BuildInfuraUrl(network, apiKey).Ok?
    ensures exists n :: BuildInfuraUrl(network, apiKey).value == "https://" + Host(n) + ".infura.io/v3/" + apiKey
    ensures var url := BuildInfuraUrl(network, apiKey).value;
      |apiKey| <= |url| && url[|url| - |apiKey|..] == apiKey && url[..8] == "https://"
  {
    var n := NetworkNamed(ToLower(network)).value;
    var url := BuildInfuraUrl(network, apiKey).value;
    assert url == "https://" + Host(n) + ".infura.io/v3/" + apiKey;
    assert url[|url| - |apiKey|..] == apiKey;
  }

  /** The middle part of a three-way concatenation can be sliced back out. */
  lemma MiddleSlice(a: string, b: string, c: string)
    ensures (a + b + c)[|a|..|a| + |b|] == b
  {
  }

  /** The host can be read back from an Infura URL once the key is known. */
  lemma UrlDeterminesHost(h1: string, h2: string, apiKey: string)
    requires "https://" + h1 + ".infura.io/v3/" + apiKey == "https://" + h2 + ".infura.io/v3/" + apiKey
    ensures h1 == h2
  {
    MiddleSlice("https://", h1, ".infura.io/v3/" + apiKey);
    MiddleSlice("https://", h2, ".infura.io/v3/" + apiKey);
    assert "https://" + h1 + ".infura.io/v3/" + apiKey == "https://" + h1 + (".infura.io/v3/" + apiKey);
    assert "https://" + h2 + ".infura.io/v3/" + apiKey == "https://" + h2 + (".infura.io/v3/" + apiKey);
  }

  /** For one key, distinct endpoints never share a URL. */
  lemma DistinctNetworksDistinctUrls(n1: Network, n2: Network, apiKey: string)
    requires n1 != n2
    ensures InfuraUrl(n1, apiKey) != InfuraUrl(n2, apiKey)
  {
    if InfuraUrl(n1, apiKey) == InfuraUrl(n2, apiKey) {
      UrlDeterminesHost(Host(n1), Host(n2), apiKey);
      HostIsAName(n1);
      HostIsAName(n2);
      assert false;
    }
  }

  /** The error for a name outside the table quotes that name verbatim. */
  lemma UnsupportedErrorQuotesName(network: string, apiKey: string)
    requires BuildInfuraUrl(network, apiKey).Err?
    ensures BuildInfuraUrl(network, apiKey).error == UnsupportedNetwork(network)
    ensures Text.Contains(BuildInfuraUrl(network, apiKey).error.Message(), network)
  {
    var m := UnsupportedNetwork(network).Message();
    MiddleSlice(UNSUPPORTED_PREFIX, network, UNSUPPORTED_SUFFIX);
    assert network <= m[|UNSUPPORTED_PREFIX|..];
  }
}
