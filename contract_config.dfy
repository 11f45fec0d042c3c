/**
 * The client's contract configuration: the deployed address, the entry fee,
 * the supported networks and the reward-tier table, together with the chain
 * IDs the deployment configuration uses for the same networks.
 */
module ContractConfig {
  import opened Wrappers
  import opened Numerals
  import Ether

  /** The address the client is configured with (Polygon Amoy). */
  const ContractAddress: string := "0x5cc10d3a5a50199db218f64bd3f6d71b1e6e87b9"

  /** The address that means "no contract deployed": both handlers then only simulate. */
  const ZeroAddress: string := "0x0000000000000000000000000000000000000000"

  /** The entry fee as ether text; it is sent as `parseEther(EntryFee)` wei. */
  const EntryFee: string := "0.001"

  datatype Network = Network(key: string, chainId: string, name: string, rpc: string, explorer: string)

  const SupportedNetworks: seq<Network> := [
    Network("polygon", "0x89", "Polygon Mainnet", "https://polygon-rpc.com/", "https://polygonscan.com"),
    Network("amoy", "0x13882", "Polygon Amoy Testnet", "https://rpc-amoy.polygon.technology/", "https://amoy.polygonscan.com"),
    Network("sepolia", "0xaa36a7", "Sepolia Testnet", "https://rpc.sepolia.org/", "https://sepolia.etherscan.io"),
    Network("arbitrum", "0xa4b1", "Arbitrum One", "https://arb1.arbitrum.io/rpc", "https://arbiscan.io"),
    Network("bsc", "0x38", "BNB Smart Chain", "https://bsc-dataseed.binance.org/", "https://bscscan.com")
  ]

  /** A network of the deployment configuration, whose chain ID is a decimal number. */
  datatype DeployNetwork = DeployNetwork(key: string, url: string, chainId: nat)

  const DeployNetworks: seq<DeployNetwork> := [
    DeployNetwork("amoy", "https://rpc-amoy.polygon.technology/", 80002),
    DeployNetwork("polygon", "https://polygon-rpc.com/", 137),
    DeployNetwork("sepolia", "https://rpc.sepolia.org/", 11155111)
  ]

  /** One reward tier: the lowest score that reaches it and the stake multiplier it pays. */
  datatype TierEntry = TierEntry(key: string, score: int, multiplier: nat, emoji: string)

  const RewardTiers: seq<TierEntry> := [
    TierEntry("BRONZE", 500, 1, "\U{1F949}"),
    TierEntry("SILVER", 1000, 2, "\U{1F948}"),
    TierEntry("GOLD", 2000, 5, "\U{1F947}"),
    TierEntry("DIAMOND", 5000, 10, "\U{1F48E}")
  ]

  ghost predicate ThresholdsIncreasing(t: seq<TierEntry>) {
    forall i, j :: 0 <= i < j < |t| ==> t[i].score < t[j].score
  }

  ghost predicate MultipliersIncreasing(t: seq<TierEntry>) {
    forall i, j :: 0 <= i < j < |t| ==> t[i].multiplier < t[j].multiplier
  }

  lemma RewardTableOrdered()
    ensures ThresholdsIncreasing(RewardTiers)
    ensures MultipliersIncreasing(RewardTiers)
  {
  }

  /** The entry fee is 10^15 wei (0.001 ether). */
  lemma EntryFeeWei()
    ensures Ether.ParseEther(EntryFee) == Some(Pow(10, 15))
  {
    FeeDigits();
    Ether.ParseFraction("001");
  }

  lemma FeeDigits()
    ensures EntryFee == "0." + "001"
    ensures AllDigits("001", 10) && DigitsValue("001", 10) == 1
  {
    assert "001"[..2] == "00" && "00"[..1] == "0" && "0"[..0] == "";
  }

  /** The wei value of the entry fee. */
  const EntryFeeInWei: nat := 1_000_000_000_000_000

  lemma EntryFeeInWeiIsPow()
    ensures Pow(10, 15) == EntryFeeInWei
  {
    assert Pow(10, 3) == 1000;
    assert Pow(10, 6) == 1000 * Pow(10, 3);
    assert Pow(10, 9) == 1000 * Pow(10, 6);
    assert Pow(10, 12) == 1000 * Pow(10, 9);
    assert Pow(10, 15) == 1000 * Pow(10, 12);
  }

  lemma EntryFeeInWeiMatches()
    ensures Ether.ParseEther(EntryFee) == Some(EntryFeeInWei)
  {
    EntryFeeWei();
    EntryFeeInWeiIsPow();
  }

  /** The networks of `nets` whose chain ID parses to `id`, in table order. */
  function FindNetwork(nets: seq<Network>, id: nat): (r: Option<Network>)
    ensures r.Some? ==> r.value in nets && ParseHex(r.value.chainId) == Some(id)
    ensures r.None? ==> forall n :: n in nets ==> ParseHex(n.chainId) != Some(id)
  {
    if nets == [] then None
    else if ParseHex(nets[0].chainId) == Some(id) then Some(nets[0])
    else FindNetwork(nets[1..], id)
  }

  ghost predicate ChainIdsDistinct(nets: seq<Network>) {
    forall i, j :: 0 <= i < j < |nets| ==> ParseHex(nets[i].chainId) != ParseHex(nets[j].chainId)
  }

  /** With distinct chain IDs, looking a network up by its chain ID finds exactly that network. */
  lemma {:induction false} FindNetworkUnique(nets: seq<Network>, k: nat)
    requires ChainIdsDistinct(nets) && k < |nets| && ParseHex(nets[k].chainId).Some?
    ensures FindNetwork(nets, ParseHex(nets[k].chainId).value) == Some(nets[k])
  {
    if k > 0 {
      assert ChainIdsDistinct(nets[1..]) by {
        forall i, j | 0 <= i < j < |nets[1..]|
          ensures ParseHex(nets[1..][i].chainId) != ParseHex(nets[1..][j].chainId)
        {
          assert nets[1..][i] == nets[i + 1] && nets[1..][j] == nets[j + 1];
        }
      }
      assert nets[1..][k - 1] == nets[k];
      FindNetworkUnique(nets[1..], k - 1);
    }
  }

  /** The hex chain IDs of the supported networks. */
  lemma SupportedChainIds()
    ensures ParseHex(SupportedNetworks[0].chainId) == Some(137)
    ensures ParseHex(SupportedNetworks[1].chainId) == Some(80002)
    ensures ParseHex(SupportedNetworks[2].chainId) == Some(11155111)
    ensures ParseHex(SupportedNetworks[3].chainId) == Some(42161)
    ensures ParseHex(SupportedNetworks[4].chainId) == Some(56)
  {
    PolygonChainId();
    AmoyChainId();
    SepoliaChainId();
    ArbitrumChainId();
    BscChainId();
  }

  lemma PolygonChainId()
    ensures ParseHex(SupportedNetworks[0].chainId) == Some(137)
  {
    assert ToHex(137) == "0x89";
    HexRoundTrip(137);
  }

  lemma AmoyChainId()
    ensures ParseHex(SupportedNetworks[1].chainId) == Some(80002)
  {
    assert ToHex(80002) == "0x13882";
    HexRoundTrip(80002);
  }

  lemma SepoliaChainId()
    ensures ParseHex(SupportedNetworks[2].chainId) == Some(11155111)
  {
    assert ToHex(11155111) == "0xaa36a7";
    HexRoundTrip(11155111);
  }

  lemma ArbitrumChainId()
    ensures ParseHex(SupportedNetworks[3].chainId) == Some(42161)
  {
    assert ToHex(42161) == "0xa4b1";
    HexRoundTrip(42161);
  }

  lemma BscChainId()
    ensures ParseHex(SupportedNetworks[4].chainId) == Some(56)
  {
    assert ToHex(56) == "0x38";
    HexRoundTrip(56);
  }

  lemma SupportedChainIdsDistinct()
    ensures ChainIdsDistinct(SupportedNetworks)
  {
    SupportedChainIds();
    var nets := SupportedNetworks;
    forall i, j | 0 <= i < j < |nets| ensures ParseHex(nets[i].chainId) != ParseHex(nets[j].chainId) {
      assert i < 4 && 1 <= j < 5;
    }
  }

  /** Every network of the deployment configuration is a supported network with the same chain ID. */
  lemma DeployChainIdsAgree()
    ensures forall d :: d in DeployNetworks ==>
      exists n :: n in SupportedNetworks && n.key == d.key && ParseHex(n.chainId) == Some(d.chainId)
  {
    SupportedChainIds();
    assert SupportedNetworks[1] in SupportedNetworks;
    assert SupportedNetworks[0] in SupportedNetworks;
    assert SupportedNetworks[2] in SupportedNetworks;
  }
}
