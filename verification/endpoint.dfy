/**
 * The block-explorer API base the page talks to: the configured explorer URL
 * with exactly one trailing slash, followed by a per-chain `.../api/` path.
 */
module Endpoint {
  import opened Hex

  /**
   * The wallet's chain selection. Only the three test chains get a path of
   * their own; mainnet and every other chain of the wallet share `api/`.
   */
  datatype Chain =
    | BitcoinMainnet
    | BitcoinTestnet
    | BitcoinTestnet4
    | BitcoinSignet
    | OtherChain(name: string)

  /** `getMempoolApiEndpoint`'s first step: add a `/` unless the URL already ends in one. */
  function WithTrailingSlash(url: string): (base: string)
    ensures StartsWith(base, url) && EndsWith(base, "/")
    ensures |base| <= |url| + 1
  {
    if EndsWith(url, "/") then url else url + "/"
  }

  /** `getMempoolApiEndpoint`'s lookup: the path below the explorer for each chain. */
  function ChainPath(chain: Chain): (path: string)
    ensures EndsWith(path, "api/")
  {
    match chain
    case BitcoinTestnet4 => "testnet4/api/"
    case BitcoinTestnet => "testnet/api/"
    case BitcoinSignet => "signet/api/"
    case _ => "api/"
  }

  /** `getMempoolApiEndpoint`. */
  function MempoolApiEndpoint(url: string, chain: Chain): (endpoint: string)
    ensures StartsWith(endpoint, url)
    ensures EndsWith(endpoint, "api/")
    ensures EndsWith(endpoint, ChainPath(chain))
    ensures endpoint[..|endpoint| - |ChainPath(chain)|] == WithTrailingSlash(url)
  {
    var base, path := WithTrailingSlash(url), ChainPath(chain);
    assert (base + path)[..|base|] == base;
    assert (base + path)[|base| + |path| - 4..] == path[|path| - 4..];
    base + path
  }

  /** The slash is added exactly when it is missing, so normalising twice changes nothing. */
  lemma TrailingSlashOnlyWhenMissing(url: string)
    ensures WithTrailingSlash(url) == url <==> EndsWith(url, "/")
    ensures WithTrailingSlash(WithTrailingSlash(url)) == WithTrailingSlash(url)
  {
  }

  /** An explorer URL given with or without its trailing slash yields the same endpoint. */
  lemma EndpointIgnoresTrailingSlash(url: string, chain: Chain)
    ensures !EndsWith(url, "/") ==> MempoolApiEndpoint(url + "/", chain) == MempoolApiEndpoint(url, chain)
    ensures MempoolApiEndpoint(WithTrailingSlash(url), chain) == MempoolApiEndpoint(url, chain)
  {
    assert EndsWith(url + "/", "/");
  }

  /**
   * For a fixed explorer URL, two chains share an endpoint exactly when they
   * share a path; mainnet and all chains other than the three test chains
   * share the plain `api/` one.
   */
  lemma EndpointSeparatesChains(url: string, c1: Chain, c2: Chain)
    ensures MempoolApiEndpoint(url, c1) == MempoolApiEndpoint(url, c2) <==> ChainPath(c1) == ChainPath(c2)
    ensures ChainPath(c1) == "api/" <==> !(c1.BitcoinTestnet4? || c1.BitcoinTestnet? || c1.BitcoinSignet?)
  {
    var base := WithTrailingSlash(url);
    if MempoolApiEndpoint(url, c1) == MempoolApiEndpoint(url, c2) {
      var e := MempoolApiEndpoint(url, c1);
      assert e[|base|..] == ChainPath(c1) && e[|base|..] == ChainPath(c2);
    }
  }
}
