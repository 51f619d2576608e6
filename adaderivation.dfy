/**
 * Batch address derivation of the ADA/ATOM cold wallet. The key library
 * (BIP-44 and SLIP-0010 derivation, address encoding, hex conversion) is an
 * oracle: each of its calls either returns or raises. What is modelled is
 * the control flow around it and the list of entries it builds.
 */
module AdaDerivation {
  import opened Python
  import opened PyText

  type Seed = seq<bv8>

  /** The two BIP-44 coin types the wallet asks the library for. */
  datatype Coin = CardanoShelley | Cosmos

  /** The attribute of `Bip44Coins` that is looked up for each coin. */
  function CoinName(c: Coin): string {
    match c
    case CardanoShelley => "CARDANO_SHELLEY"
    case Cosmos => "COSMOS"
  }

  /** Opaque key objects of the library. */
  datatype PubKey = PubKey(handle: nat)
  datatype PrivKey = PrivKey(handle: nat)
  datatype KeyPair = KeyPair(pub: PubKey, priv: PrivKey)
  datatype Bip44Wallet = Bip44Wallet(handle: nat)

  /**
   * The key library's calls. `addressKeys(w, i)` is the chain
   * `Purpose().Coin().Account(0).Change(CHAIN_EXT).AddressIndex(i)` followed by
   * `PublicKey()` and `PrivateKey()`; `slip10Derive(seed, path)` is
   * `Bip32Slip10Ed25519.FromSeed(seed).DerivePath(path)` followed by the same two.
   */
  datatype KeyLibrary = KeyLibrary(
    hasCoin: Coin -> bool,
    bip44FromSeed: (Seed, Coin) -> Outcome<Bip44Wallet>,
    addressKeys: (Bip44Wallet, nat) -> Outcome<KeyPair>,
    toAddress: PubKey -> Outcome<string>,
    pubToHex: PubKey -> Outcome<string>,
    rawCompressedHex: PubKey -> Outcome<string>,
    privToHex: PrivKey -> Outcome<string>,
    rawPrivHex: PrivKey -> Outcome<string>,
    slip10Derive: (Seed, string) -> Outcome<KeyPair>)

  /** The derivation, recorded under the key "method", with each derived entry. */
  datatype Derivation = Bip44CardanoShelley | Ed25519Fallback | Bip44Cosmos

  function DerivationTag(m: Derivation): string {
    match m
    case Bip44CardanoShelley => "bip44_cardano_shelley"
    case Ed25519Fallback => "ed25519_fallback"
    case Bip44Cosmos => "bip44_cosmos"
  }

  function CanonicalDerivation(c: Coin): Derivation {
    match c
    case CardanoShelley => Bip44CardanoShelley
    case Cosmos => Bip44Cosmos
  }

  /** One element of the derived list: a key record, or `{"index": i, "error": msg}`. */
  datatype Entry =
    | Derived(index: nat, address: string, pub: string, priv: string, derivation: Derivation)
    | Failed(index: nat, error: string)

  /** `pubkey_to_hex(pub)`: `ToHex()`, else the hex of the raw compressed bytes. */
  function PubkeyToHex(lib: KeyLibrary, pub: PubKey): (r: Outcome<string>)
    ensures lib.pubToHex(pub).Ok? ==> r == lib.pubToHex(pub)
    ensures lib.pubToHex(pub).Raised? ==> r == lib.rawCompressedHex(pub)
  {
    match lib.pubToHex(pub)
    case Ok(h) => Ok(h)
    case Raised(_) => lib.rawCompressedHex(pub)
  }

  /** `privkey_to_hex(priv)`: `ToHex()`, else the hex of the raw bytes. */
  function PrivkeyToHex(lib: KeyLibrary, priv: PrivKey): (r: Outcome<string>)
    ensures lib.privToHex(priv).Ok? ==> r == lib.privToHex(priv)
    ensures lib.privToHex(priv).Raised? ==> r == lib.rawPrivHex(priv)
  {
    match lib.privToHex(priv)
    case Ok(h) => Ok(h)
    case Raised(_) => lib.rawPrivHex(priv)
  }

  /**
   * One pass of the canonical loop body for index i. The address is
   * `ToAddress()`, or the public key's hex when that raises; the entry is
   * built unless deriving the keys or converting either key to hex raises.
   */
  function CanonicalEntry(lib: KeyLibrary, w: Bip44Wallet, coin: Coin, i: nat): (r: Outcome<Entry>)
    ensures r.Ok? <==>
      && lib.addressKeys(w, i).Ok?
      && PubkeyToHex(lib, lib.addressKeys(w, i).value.pub).Ok?
      && PrivkeyToHex(lib, lib.addressKeys(w, i).value.priv).Ok?
    ensures r.Ok? ==>
      var keys := lib.addressKeys(w, i).value;
      var e := r.value;
      && e.Derived? && e.index == i && e.derivation == CanonicalDerivation(coin)
      && e.pub == PubkeyToHex(lib, keys.pub).value
      && e.priv == PrivkeyToHex(lib, keys.priv).value
      && e.address == (if lib.toAddress(keys.pub).Ok? then lib.toAddress(keys.pub).value else e.pub)
  {
    match lib.addressKeys(w, i)
    case Raised(m) => Raised(m)
    case Ok(keys) =>
      var addr := match lib.toAddress(keys.pub)
        case Ok(a) => Ok(a)
        case Raised(_) => PubkeyToHex(lib, keys.pub);
      match addr
      case Raised(m) => Raised(m)
      case Ok(a) =>
        match PubkeyToHex(lib, keys.pub)
        case Raised(m) => Raised(m)
        case Ok(pubHex) =>
          match PrivkeyToHex(lib, keys.priv)
          case Raised(m) => Raised(m)
          case Ok(privHex) => Ok(Derived(i, a, pubHex, privHex, CanonicalDerivation(coin)))
  }

  /**
   * The state of the canonical `try` block: it returned the list, or an
   * exception left it with the entries appended so far.
   */
  datatype Canonical = Completed(entries: seq<Entry>) | Aborted(entries: seq<Entry>, reason: string)

  /** The canonical loop after the indices 0 .. n-1 have been attempted. */
  function CanonicalLoop(lib: KeyLibrary, w: Bip44Wallet, coin: Coin, n: nat): (r: Canonical)
    ensures |r.entries| <= n
    ensures forall k :: 0 <= k < |r.entries| ==> CanonicalEntry(lib, w, coin, k) == Ok(r.entries[k])
    ensures r.Completed? ==> |r.entries| == n
    ensures r.Aborted? ==> CanonicalEntry(lib, w, coin, |r.entries|) == Raised(r.reason)
  {
    if n == 0 then Completed([])
    else
      match CanonicalLoop(lib, w, coin, n - 1)
      case Aborted(es, m) => Aborted(es, m)
      case Completed(es) =>
        match CanonicalEntry(lib, w, coin, n - 1)
        case Ok(e) => Completed(es + [e])
        case Raised(m) => Aborted(es, m)
  }

  /** Once the loop has raised, attempting more indices changes nothing. */
  lemma {:induction false} AbortedStays(lib: KeyLibrary, w: Bip44Wallet, coin: Coin, i: nat, n: nat)
    requires i <= n && CanonicalLoop(lib, w, coin, i).Aborted?
    ensures CanonicalLoop(lib, w, coin, n) == CanonicalLoop(lib, w, coin, i)
    decreases n
  {
    if n > i {
      AbortedStays(lib, w, coin, i, n - 1);
    }
  }

  /** The `AttributeError` raised when the coin is missing from `Bip44Coins`. */
  function MissingCoin(coin: Coin): (m: string)
    ensures coin == CardanoShelley ==> m == "CARDANO_SHELLEY not in Bip44Coins"
    ensures coin == Cosmos ==> m == "COSMOS not in Bip44Coins"
  {
    CoinName(coin) + " not in Bip44Coins"
  }

  /**
   * The whole canonical `try` block for `count` indices: the attribute
   * check, `Bip44.FromSeed`, then the loop.
   */
  function CanonicalPhase(lib: KeyLibrary, seed: Seed, coin: Coin, count: nat): (r: Canonical)
    ensures !lib.hasCoin(coin) ==> r == Aborted([], MissingCoin(coin))
    ensures lib.hasCoin(coin) && lib.bip44FromSeed(seed, coin).Raised? ==> r == Aborted([], lib.bip44FromSeed(seed, coin).msg)
    ensures r.Completed? <==>
      && lib.hasCoin(coin) && lib.bip44FromSeed(seed, coin).Ok?
      && forall i :: 0 <= i < count ==> CanonicalEntry(lib, lib.bip44FromSeed(seed, coin).value, coin, i).Ok?
    ensures r.Completed? ==> |r.entries| == count
    ensures r.Aborted? ==> |r.entries| < count || r.entries == []
  {
    if !lib.hasCoin(coin) then Aborted([], MissingCoin(coin))
    else
      match lib.bip44FromSeed(seed, coin)
      case Raised(m) => Aborted([], m)
      case Ok(w) => CanonicalLoop(lib, w, coin, count)
  }

  /** Each canonical entry is the one derived for its position, tagged with the coin's method. */
  lemma CanonicalEntries(lib: KeyLibrary, seed: Seed, coin: Coin, count: nat)
    ensures var es := CanonicalPhase(lib, seed, coin, count).entries;
      forall k :: 0 <= k < |es| ==> es[k].Derived? && es[k].index == k && es[k].derivation == CanonicalDerivation(coin)
  {
  }

  /** The SLIP-0010 path of the ADA fallback, `m/1852'/1815'/0'/0/{i}`. */
  const FallbackPrefix := "m/1852'/1815'/0'/0/"

  /**
   * The CIP-1852 fallback path for index i: the fixed prefix, then i in
   * decimal, which reads back as i.
   */
  function FallbackPath(i: nat): (p: string)
    ensures |p| > |FallbackPrefix| && p[..|FallbackPrefix|] == FallbackPrefix
    ensures forall k :: |FallbackPrefix| <= k < |p| ==> IsDigit(p[k])
    ensures DigitsValue(p[|FallbackPrefix|..]) == i
  {
    var d := DecimalString(i);
    DecimalStringValue(i);
    assert (FallbackPrefix + d)[|FallbackPrefix|..] == d;
    FallbackPrefix + d
  }

  /** Different indices are derived on different paths. */
  lemma FallbackPathInjective(i: nat, j: nat)
    requires FallbackPath(i) == FallbackPath(j)
    ensures i == j
  {
    assert FallbackPath(i)[|FallbackPrefix|..] == FallbackPath(j)[|FallbackPrefix|..];
  }

  /**
   * One pass of the fallback loop: an entry whose address is the public key's
   * hex, or an error entry for the same index; it never raises.
   */
  function FallbackEntry(lib: KeyLibrary, seed: Seed, i: nat): (e: Entry)
    ensures e.index == i
    ensures e.Derived? <==>
      && lib.slip10Derive(seed, FallbackPath(i)).Ok?
      && PubkeyToHex(lib, lib.slip10Derive(seed, FallbackPath(i)).value.pub).Ok?
      && PrivkeyToHex(lib, lib.slip10Derive(seed, FallbackPath(i)).value.priv).Ok?
    ensures e.Derived? ==>
      var keys := lib.slip10Derive(seed, FallbackPath(i)).value;
      && e.derivation == Ed25519Fallback && e.address == e.pub
      && e.pub == PubkeyToHex(lib, keys.pub).value
      && e.priv == PrivkeyToHex(lib, keys.priv).value
    ensures lib.slip10Derive(seed, FallbackPath(i)).Raised? ==> e == Failed(i, lib.slip10Derive(seed, FallbackPath(i)).msg)
  {
    match lib.slip10Derive(seed, FallbackPath(i))
    case Raised(m) => Failed(i, m)
    case Ok(keys) =>
      match PubkeyToHex(lib, keys.pub)
      case Raised(m) => Failed(i, m)
      case Ok(pubHex) =>
        match PrivkeyToHex(lib, keys.priv)
        case Raised(m) => Failed(i, m)
        case Ok(privHex) => Derived(i, pubHex, pubHex, privHex, Ed25519Fallback)
  }

  /** The fallback loop over indices 0 .. n-1: one entry per index, in order. */
  function FallbackEntries(lib: KeyLibrary, seed: Seed, n: nat): (r: seq<Entry>)
    ensures |r| == n
    ensures forall k :: 0 <= k < n ==> r[k] == FallbackEntry(lib, seed, k)
  {
    if n == 0 then [] else FallbackEntries(lib, seed, n - 1) + [FallbackEntry(lib, seed, n - 1)]
  }

  /** The error message of every ATOM entry after a failure. */
  function CosmosFailure(msg: string): string {
    "Cosmos derive failed: " + msg
  }

  /** The ATOM except-branch over indices 0 .. n-1: one error entry per index. */
  function CosmosFailures(msg: string, n: nat): (r: seq<Entry>)
    ensures |r| == n
    ensures forall k :: 0 <= k < n ==> r[k] == Failed(k, CosmosFailure(msg))
  {
    if n == 0 then [] else CosmosFailures(msg, n - 1) + [Failed(n - 1, CosmosFailure(msg))]
  }

  /**
   * What `derive_ada_addresses(seed, count)` returns: the canonical entries
   * first, then, when the canonical block raised, `count` fallback entries.
   */
  function AdaAddresses(lib: KeyLibrary, seed: Seed, count: nat): (r: seq<Entry>)
    ensures |r| >= count
  {
    match CanonicalPhase(lib, seed, CardanoShelley, count)
    case Completed(es) => es
    case Aborted(es, _) => es + FallbackEntries(lib, seed, count)
  }

  /**
   * What `derive_atom_addresses(seed, count)` returns: the canonical entries
   * first, then, when the canonical block raised, `count` error entries.
   */
  function AtomAddresses(lib: KeyLibrary, seed: Seed, count: nat): (r: seq<Entry>)
    ensures |r| >= count
  {
    match CanonicalPhase(lib, seed, Cosmos, count)
    case Completed(es) => es
    case Aborted(es, m) => es + CosmosFailures(m, count)
  }

  /** The canonical `try` block, run index by index. */
  method RunCanonical(lib: KeyLibrary, seed: Seed, coin: Coin, count: nat) returns (phase: Canonical)
    ensures phase == CanonicalPhase(lib, seed, coin, count)
  {
    if !lib.hasCoin(coin) {
      return Aborted([], MissingCoin(coin));
    }
    var wallet := lib.bip44FromSeed(seed, coin);
    if wallet.Raised? {
      return Aborted([], wallet.msg);
    }
    var w := wallet.value;
    var out: seq<Entry> := [];
    var i := 0;
    while i < count
      invariant 0 <= i <= count
      invariant CanonicalLoop(lib, w, coin, i) == Completed(out)
    {
      var e := CanonicalEntry(lib, w, coin, i);
      if e.Raised? {
        AbortedStays(lib, w, coin, i + 1, count);
        return Aborted(out, e.msg);
      }
      out := out + [e.value];
      i := i + 1;
    }
    phase := Completed(out);
  }

  /** `derive_ada_addresses`: the canonical branch, then the fallback loop if it raised. */
  method DeriveAdaAddresses(lib: KeyLibrary, seed: Seed, count: nat) returns (out: seq<Entry>)
    ensures out == AdaAddresses(lib, seed, count)
  {
    var phase := RunCanonical(lib, seed, CardanoShelley, count);
    out := phase.entries;
    if phase.Completed? {
      return;
    }
    var i := 0;
    while i < count
      invariant 0 <= i <= count
      invariant out == phase.entries + FallbackEntries(lib, seed, i)
    {
      out := out + [FallbackEntry(lib, seed, i)];
      i := i + 1;
    }
  }

  /** `derive_atom_addresses`: the canonical branch, then one error entry per index if it raised. */
  method DeriveAtomAddresses(lib: KeyLibrary, seed: Seed, count: nat) returns (out: seq<Entry>)
    ensures out == AtomAddresses(lib, seed, count)
  {
    var phase := RunCanonical(lib, seed, Cosmos, count);
    out := phase.entries;
    if phase.Completed? {
      return;
    }
    var i := 0;
    while i < count
      invariant 0 <= i <= count
      invariant out == phase.entries + CosmosFailures(phase.reason, i)
    {
      out := out + [Failed(i, CosmosFailure(phase.reason))];
      i := i + 1;
    }
  }

  /**
   * When the canonical ADA branch completes, the list has exactly `count`
   * entries, entry i is for index i and tagged "bip44_cardano_shelley", and
   * the fallback derivation is never consulted: a library that differs only
   * in it gives the same list.
   */
  lemma AdaCanonicalSuccess(lib: KeyLibrary, other: KeyLibrary, seed: Seed, count: nat)
    requires CanonicalPhase(lib, seed, CardanoShelley, count).Completed?
    requires other == lib.(slip10Derive := other.slip10Derive)
    ensures var r := AdaAddresses(lib, seed, count);
      && |r| == count
      && (forall i :: 0 <= i < count ==> r[i].Derived? && r[i].index == i && DerivationTag(r[i].derivation) == "bip44_cardano_shelley")
    ensures AdaAddresses(other, seed, count) == AdaAddresses(lib, seed, count)
  {
    CanonicalEntries(lib, seed, CardanoShelley, count);
    assert CanonicalPhase(other, seed, CardanoShelley, count) == CanonicalPhase(lib, seed, CardanoShelley, count) by {
      if lib.hasCoin(CardanoShelley) && lib.bip44FromSeed(seed, CardanoShelley).Ok? {
        SameCanonicalLoop(lib, other, lib.bip44FromSeed(seed, CardanoShelley).value, CardanoShelley, count);
      }
    }
  }

  /** The canonical loop does not look at the SLIP-0010 derivation. */
  lemma {:induction false} SameCanonicalLoop(lib: KeyLibrary, other: KeyLibrary, w: Bip44Wallet, coin: Coin, n: nat)
    requires other == lib.(slip10Derive := other.slip10Derive)
    ensures CanonicalLoop(other, w, coin, n) == CanonicalLoop(lib, w, coin, n)
  {
    if n > 0 {
      SameCanonicalLoop(lib, other, w, coin, n - 1);
      assert CanonicalEntry(other, w, coin, n - 1) == CanonicalEntry(lib, w, coin, n - 1);
    }
  }

  /**
   * When the canonical ADA branch raises after k entries, those k entries are
   * kept and the full fallback list of `count` entries follows them; k is 0
   * when the coin is missing or `Bip44.FromSeed` raises.
   */
  lemma AdaFallbackKeepsPartial(lib: KeyLibrary, seed: Seed, count: nat)
    requires CanonicalPhase(lib, seed, CardanoShelley, count).Aborted?
    ensures var es := CanonicalPhase(lib, seed, CardanoShelley, count).entries;
      var r := AdaAddresses(lib, seed, count);
      && |r| == |es| + count
      && r[..|es|] == es
      && r[|es|..] == FallbackEntries(lib, seed, count)
    ensures !lib.hasCoin(CardanoShelley) || lib.bip44FromSeed(seed, CardanoShelley).Raised? ==>
      AdaAddresses(lib, seed, count) == FallbackEntries(lib, seed, count)
  {
    var es := CanonicalPhase(lib, seed, CardanoShelley, count).entries;
    var r := AdaAddresses(lib, seed, count);
    assert r[..|es|] == es;
    assert r[|es|..] == FallbackEntries(lib, seed, count);
  }

  /**
   * The fallback never aborts: every index 0 .. count-1 gets exactly one
   * entry, either a key record on path `m/1852'/1815'/0'/0/{i}` tagged
   * "ed25519_fallback" whose address is its public key, or an error entry.
   */
  lemma AdaFallbackNeverAborts(lib: KeyLibrary, seed: Seed, count: nat)
    ensures var f := FallbackEntries(lib, seed, count);
      && |f| == count
      && forall i :: 0 <= i < count ==>
           && f[i].index == i
           && (f[i].Derived? ==>
                 && DerivationTag(f[i].derivation) == "ed25519_fallback" && f[i].address == f[i].pub
                 && lib.slip10Derive(seed, FallbackPath(i)).Ok?)
  {
  }

  /**
   * Side effect of keeping the partial canonical list: when the canonical
   * branch raises after at least one entry, the ADA list is longer than
   * `count` and index 0 appears twice.
   */
  lemma AdaDuplicateIndex(lib: KeyLibrary, seed: Seed, count: nat)
    requires CanonicalPhase(lib, seed, CardanoShelley, count).Aborted?
    requires CanonicalPhase(lib, seed, CardanoShelley, count).entries != []
    ensures var r := AdaAddresses(lib, seed, count);
      var k := |CanonicalPhase(lib, seed, CardanoShelley, count).entries|;
      && |r| > count && 0 < k < |r|
      && r[0].index == 0 && r[k].index == 0
  {
    AdaFallbackKeepsPartial(lib, seed, count);
    CanonicalEntries(lib, seed, CardanoShelley, count);
    var k := |CanonicalPhase(lib, seed, CardanoShelley, count).entries|;
    var r := AdaAddresses(lib, seed, count);
    assert r[k] == r[k..][0];
  }

  /**
   * ATOM results: a completed run gives `count` entries tagged "bip44_cosmos"
   * for indices 0 .. count-1; a failed one keeps its partial entries and adds
   * one error entry per index, each message starting "Cosmos derive failed: ".
   */
  lemma AtomResults(lib: KeyLibrary, seed: Seed, count: nat)
    ensures var phase := CanonicalPhase(lib, seed, Cosmos, count);
      var r := AtomAddresses(lib, seed, count);
      && (phase.Completed? ==>
            && |r| == count
            && forall i :: 0 <= i < count ==> r[i].Derived? && r[i].index == i && DerivationTag(r[i].derivation) == "bip44_cosmos")
      && (phase.Aborted? ==>
            var k := |phase.entries|;
            && |r| == k + count
            && r[..k] == phase.entries
            && forall j :: k <= j < k + count ==>
                 r[j].Failed? && r[j].index == j - k
                 && r[j].error == "Cosmos derive failed: " + phase.reason)
  {
    var phase := CanonicalPhase(lib, seed, Cosmos, count);
    CanonicalEntries(lib, seed, Cosmos, count);
    if phase.Aborted? {
      var r := AtomAddresses(lib, seed, count);
      assert r[..|phase.entries|] == phase.entries;
    }
  }
}
