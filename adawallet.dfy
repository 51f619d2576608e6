/**
 * The wallet file of the ADA/ATOM cold wallet: loading it without ever
 * raising, the record `create_wallet` writes, and what `view_wallet` and
 * `receive_cli` make of the loaded content.
 */
module AdaWallet {
  import opened Python
  import opened FileSystem
  import opened AdaDerivation

  const InfoPath: string := "wallet_Staking/wallet_info.json"
  const BackupPath: string := "wallet_Staking/wallet_info_corrupt_backup.json"

  /** How many addresses `create_wallet` derives per chain. */
  const AddressCount: nat := 3

  /** The file at `path` exists, is not empty, and `json.load` reports a decode error. */
  predicate Unparseable(files: map<string, FileEntry>, path: string) {
    path in files && SizeOf(files[path]) != Size(0) && LoadOf(files[path]).DecodeError?
  }

  /**
   * `safe_load_json(path)`: never raises; the parsed content of an existing,
   * non-empty, readable JSON file, and `{}` in every other case.
   */
  function SafeLoad(files: map<string, FileEntry>, path: string): (r: Json)
    ensures path in files && SizeOf(files[path]) != Size(0) && LoadOf(files[path]).Parsed? ==> r == LoadOf(files[path]).value
    ensures r != EmptyObject ==> path in files && SizeOf(files[path]) != Size(0) && LoadOf(files[path]) == Parsed(r)
  {
    if path !in files then EmptyObject
    else if SizeOf(files[path]) == Size(0) then EmptyObject
    else
      match LoadOf(files[path])
      case Parsed(v) => v
      case DecodeError(_) => EmptyObject
      case ReadError(_) => EmptyObject
  }

  /** The four ways to get `{}` back: absent, empty, not JSON, unreadable. */
  lemma SafeLoadEmptyCases(files: map<string, FileEntry>, path: string)
    ensures path !in files ==> SafeLoad(files, path) == EmptyObject
    ensures path in files && SizeOf(files[path]) == Size(0) ==> SafeLoad(files, path) == EmptyObject
    ensures Unparseable(files, path) ==> SafeLoad(files, path) == EmptyObject
    ensures path in files && LoadOf(files[path]).ReadError? ==> SafeLoad(files, path) == EmptyObject
  {
  }

  /**
   * `safe_load_json` with its one side effect: on a decode error it copies
   * the file to the backup path, which may fail (`backupOk`, the
   * environment's answer) without changing the result.
   */
  method SafeLoadJson(store: FileStore, path: string, backupOk: bool) returns (r: Json)
    modifies store
    ensures r == SafeLoad(old(store.files), path)
    ensures store.files ==
      if Unparseable(old(store.files), path) && backupOk then old(store.files)[BackupPath := old(store.files)[path]]
      else old(store.files)
  {
    if !store.Exists(path) {
      return EmptyObject;
    }
    var entry := store.files[path];
    if SizeOf(entry) == Size(0) {
      return EmptyObject;
    }
    match LoadOf(entry) {
      case Parsed(v) =>
        r := v;
      case DecodeError(_) =>
        store.Copy(path, BackupPath, backupOk);
        r := EmptyObject;
      case ReadError(_) =>
        r := EmptyObject;
    }
  }

  /** What the mnemonic generator returns: a string, or an object with `ToStr()`. */
  datatype MnemonicObj = MnemonicText(text: string) | MnemonicObject(toStr: Outcome<string>, repr: string)

  /** `to_str_mnemonic(mobj)`: the string itself, `ToStr()`, or `str(mobj)` when that raises. */
  function ToStrMnemonic(m: MnemonicObj): (r: string)
    ensures m.MnemonicText? ==> r == m.text
    ensures m.MnemonicObject? && m.toStr.Ok? ==> r == m.toStr.value
    ensures m.MnemonicObject? && m.toStr.Raised? ==> r == m.repr
  {
    match m
    case MnemonicText(s) => s
    case MnemonicObject(toStr, repr) => if toStr.Ok? then toStr.value else repr
  }

  /** The BIP-39 calls: the validator's `IsValid`, and `Bip39SeedGenerator(m).Generate()`. */
  datatype Bip39Library = Bip39Library(validate: string -> Outcome<bool>, generateSeed: string -> Outcome<Seed>)

  /** `is_valid_mnemonic(m)`: the validator's answer, or whether a seed can be generated when it raises. */
  function IsValidMnemonic(bip39: Bip39Library, m: string): (r: bool)
    ensures bip39.validate(m).Ok? ==> r == bip39.validate(m).value
    ensures bip39.validate(m).Raised? ==> (r <==> bip39.generateSeed(m).Ok?)
  {
    match bip39.validate(m)
    case Ok(b) => b
    case Raised(_) => bip39.generateSeed(m).Ok?
  }

  /** An entry as the dict written to the file. */
  function EntryJson(e: Entry): (j: Json)
    ensures j.JObj? && "index" in j.fields && j.fields["index"] == JNum(e.index)
    ensures e.Derived? ==> j.fields.Keys == {"index", "address", "pub", "priv", "method"}
    ensures e.Failed? ==> j.fields.Keys == {"index", "error"}
  {
    match e
    case Derived(i, address, pub, priv, d) =>
      JObj(map["index" := JNum(i), "address" := JStr(address), "pub" := JStr(pub),
               "priv" := JStr(priv), "method" := JStr(DerivationTag(d))])
    case Failed(i, msg) => JObj(map["index" := JNum(i), "error" := JStr(msg)])
  }

  function EntriesJson(es: seq<Entry>): (j: Json)
    ensures j.JArr? && |j.items| == |es|
    ensures forall k :: 0 <= k < |es| ==> j.items[k] == EntryJson(es[k])
  {
    JArr(seq(|es|, k requires 0 <= k < |es| => EntryJson(es[k])))
  }

  /**
   * The `wallet_info` dict of `create_wallet`: exactly the keys mnemonic,
   * mnemonic_type ("BIP39") and chains, and chains has exactly ADA and ATOM
   * holding the two lists.
   */
  function WalletRecord(mnemonic: string, ada: seq<Entry>, atom: seq<Entry>): (record: Json)
    ensures record.JObj?
    ensures record.fields.Keys == {"mnemonic", "mnemonic_type", "chains"}
    ensures record.fields["mnemonic"] == JStr(mnemonic)
    ensures record.fields["mnemonic_type"] == JStr("BIP39")
    ensures record.fields["chains"].JObj?
    ensures record.fields["chains"].fields.Keys == {"ADA", "ATOM"}
    ensures record.fields["chains"].fields["ADA"] == EntriesJson(ada)
    ensures record.fields["chains"].fields["ATOM"] == EntriesJson(atom)
  {
    JObj(map[
      "mnemonic" := JStr(mnemonic),
      "mnemonic_type" := JStr("BIP39"),
      "chains" := JObj(map["ADA" := EntriesJson(ada), "ATOM" := EntriesJson(atom)])])
  }

  /** `entries[0].get("address", "error")` on the saved dict of an entry, shown in the preview table. */
  function Preview(e: Entry): (shown: string)
    ensures Get(EntryJson(e), "address", JStr("error")) == Ok(JStr(shown))
  {
    match e
    case Derived(_, address, _, _, _) => address
    case Failed(_, _) => "error"
  }

  datatype CreateOutcome =
    | Created(record: Json, adaPreview: string, atomPreview: string)
    /** "Generated mnemonic failed validation. Abort." */
    | InvalidMnemonic
    /** An exception left `create_wallet`. */
    | CreateCrashed(msg: string)

  /**
   * `create_wallet` given what the mnemonic generator produced: a mnemonic that
   * fails validation saves nothing, and neither does a raising generator or
   * seed generation; otherwise both chains are derived with three addresses
   * each and the record is built.
   */
  function CreateWalletResult(bip39: Bip39Library, keys: KeyLibrary, generated: Outcome<MnemonicObj>): (r: CreateOutcome)
    ensures generated.Raised? ==> r == CreateCrashed(generated.msg)
    ensures generated.Ok? ==> (r == InvalidMnemonic <==> !IsValidMnemonic(bip39, ToStrMnemonic(generated.value)))
    ensures generated.Ok? && IsValidMnemonic(bip39, ToStrMnemonic(generated.value)) ==>
      var seed := bip39.generateSeed(ToStrMnemonic(generated.value));
      && (seed.Ok? ==> r.Created?)
      && (seed.Raised? ==> r == CreateCrashed(seed.msg))
    ensures r.Created? ==>
      && generated.Ok?
      && var mnemonic := ToStrMnemonic(generated.value);
      && IsValidMnemonic(bip39, mnemonic)
      && bip39.generateSeed(mnemonic).Ok?
      && var seed := bip39.generateSeed(mnemonic).value;
      && r.record == WalletRecord(mnemonic, AdaAddresses(keys, seed, AddressCount), AtomAddresses(keys, seed, AddressCount))
      && |AdaAddresses(keys, seed, AddressCount)| > 0 && |AtomAddresses(keys, seed, AddressCount)| > 0
      && r.adaPreview == Preview(AdaAddresses(keys, seed, AddressCount)[0])
      && r.atomPreview == Preview(AtomAddresses(keys, seed, AddressCount)[0])
  {
    match generated
    case Raised(m) => CreateCrashed(m)
    case Ok(mobj) =>
      var mnemonic := ToStrMnemonic(mobj);
      if !IsValidMnemonic(bip39, mnemonic) then InvalidMnemonic
      else
        match bip39.generateSeed(mnemonic)
        case Raised(m) => CreateCrashed(m)
        case Ok(seed) =>
          var ada := AdaAddresses(keys, seed, AddressCount);
          var atom := AtomAddresses(keys, seed, AddressCount);
          Created(WalletRecord(mnemonic, ada, atom), Preview(ada[0]), Preview(atom[0]))
  }

  /**
   * `create_wallet`: writes the record only when it was built. It has no
   * existence check of its own and replaces whatever the info file held.
   */
  method CreateWallet(store: FileStore, bip39: Bip39Library, keys: KeyLibrary, generated: Outcome<MnemonicObj>)
    returns (r: CreateOutcome)
    modifies store
    ensures r == CreateWalletResult(bip39, keys, generated)
    ensures store.files == if r.Created? then old(store.files)[InfoPath := Document(r.record)] else old(store.files)
  {
    if generated.Raised? {
      return CreateCrashed(generated.msg);
    }
    var mnemonic := ToStrMnemonic(generated.value);
    if !IsValidMnemonic(bip39, mnemonic) {
      return InvalidMnemonic;
    }
    var seed := bip39.generateSeed(mnemonic);
    if seed.Raised? {
      return CreateCrashed(seed.msg);
    }
    var ada := DeriveAdaAddresses(keys, seed.value, AddressCount);
    var atom := DeriveAtomAddresses(keys, seed.value, AddressCount);
    var record := WalletRecord(mnemonic, ada, atom);
    store.WriteJson(InfoPath, record);
    r := Created(record, Preview(ada[0]), Preview(atom[0]));
  }

  /** `info.get("chains", {}).get(chain, [])` */
  function ChainEntries(info: Json, chain: string): (r: Outcome<Json>)
    ensures r.Ok? <==> info.JObj? && Get(info, "chains", EmptyObject).value.JObj?
  {
    match Get(info, "chains", EmptyObject)
    case Raised(m) => Raised(m)
    case Ok(chains) => Get(chains, chain, JArr([]))
  }

  /** The position of the first element of `items` that is not a dict: the one whose `.get` raises. */
  function FirstNonObject(items: seq<Json>): (k: nat)
    requires exists k :: 0 <= k < |items| && !items[k].JObj?
    ensures k < |items| && !items[k].JObj?
    ensures forall j :: 0 <= j < k ==> items[j].JObj?
  {
    if !items[0].JObj? then 0
    else
      var k :| 0 <= k < |items| && !items[k].JObj?;
      assert 0 <= k - 1 < |items[1..]| && !items[1..][k - 1].JObj?;
      1 + FirstNonObject(items[1..])
  }

  /**
   * `for e in x: e.get(...)`: the elements of a list of dicts. In a list, the
   * first element that is not a dict raises at its `.get`; iterating a dict or
   * a string yields strings, which have no `get`; other values cannot be
   * iterated at all.
   */
  function EntryObjects(x: Json): (r: Outcome<seq<Json>>)
    ensures r.Ok? ==> forall k :: 0 <= k < |r.value| ==> r.value[k].JObj?
    ensures r.Ok? && Truthy(x) ==> x.JArr? && r.value == x.items
    ensures x.JArr? && (forall k :: 0 <= k < |x.items| ==> x.items[k].JObj?) ==> r == Ok(x.items)
    ensures x.JArr? && r.Raised? ==> exists k :: 0 <= k < |x.items| && !x.items[k].JObj? && r.msg == NoGetMessage(x.items[k])
    ensures (x.JNull? || x.JBool? || x.JNum?) ==> r == Raised("'" + TypeName(x) + "' object is not iterable")
  {
    match x
    case JArr(items) =>
      if forall k :: 0 <= k < |items| ==> items[k].JObj? then Ok(items)
      else Raised(NoGetMessage(items[FirstNonObject(items)]))
    case JObj(fields) => if fields == map[] then Ok([]) else Raised(NoGetMessage(JStr("")))
    case JStr(s) => if s == "" then Ok([]) else Raised(NoGetMessage(JStr("")))
    case _ => Raised("'" + TypeName(x) + "' object is not iterable")
  }

  /** One row of the view table: chain, `entry.get("index", "-")`, and address, else error, else "n/a". */
  datatype Row = Row(chain: string, index: Json, note: Json)

  function ViewRow(chain: string, e: Json): (row: Row)
    requires e.JObj?
    ensures row.chain == chain
    ensures row.index == if "index" in e.fields then e.fields["index"] else JStr("-")
    ensures "address" in e.fields && Truthy(e.fields["address"]) ==> row.note == e.fields["address"]
    ensures !("address" in e.fields && Truthy(e.fields["address"])) && "error" in e.fields && Truthy(e.fields["error"]) ==>
      row.note == e.fields["error"]
    ensures !("address" in e.fields && Truthy(e.fields["address"])) && !("error" in e.fields && Truthy(e.fields["error"])) ==>
      row.note == JStr("n/a")
    ensures Truthy(row.note)
  {
    var address := Get(e, "address", JNull).value;
    var error := Get(e, "error", JNull).value;
    Row(chain, Get(e, "index", JStr("-")).value, Or(Or(address, error), JStr("n/a")))
  }

  function ViewRows(chain: string, items: seq<Json>): (rows: seq<Row>)
    requires forall k :: 0 <= k < |items| ==> items[k].JObj?
    ensures |rows| == |items|
    ensures forall k :: 0 <= k < |items| ==> rows[k] == ViewRow(chain, items[k])
  {
    seq(|items|, k requires 0 <= k < |items| => ViewRow(chain, items[k]))
  }

  datatype ViewOutcome =
    /** "Wallet not found or empty. Create it first." */
    | WalletNotFound
    | Shown(rows: seq<Row>, mnemonic: Option<Json>)
    | ViewCrashed(msg: string)

  /**
   * `view_wallet` on the loaded content: an empty (falsy) content means no
   * wallet; otherwise one row per stored entry, ADA first, and the mnemonic
   * when it is set.
   */
  function ViewWallet(info: Json): (r: ViewOutcome)
    ensures r == WalletNotFound <==> !Truthy(info)
    ensures r.Shown? ==> info.JObj?
    ensures r.Shown? ==> (r.mnemonic.Some? <==> "mnemonic" in info.fields && Truthy(info.fields["mnemonic"]))
  {
    if !Truthy(info) then WalletNotFound
    else
      match ChainEntries(info, "ADA")
      case Raised(m) => ViewCrashed(m)
      case Ok(adaList) =>
        match EntryObjects(adaList)
        case Raised(m) => ViewCrashed(m)
        case Ok(ada) =>
          match ChainEntries(info, "ATOM")
          case Raised(m) => ViewCrashed(m)
          case Ok(atomList) =>
            match EntryObjects(atomList)
            case Raised(m) => ViewCrashed(m)
            case Ok(atom) =>
              var mnemonic := Get(info, "mnemonic", JNull).value;
              Shown(ViewRows("ADA", ada) + ViewRows("ATOM", atom), if Truthy(mnemonic) then Some(mnemonic) else None)
  }

  datatype Chain = Ada | Atom

  function ChainName(c: Chain): string {
    match c
    case Ada => "ADA"
    case Atom => "ATOM"
  }

  datatype ReceiveOutcome =
    /** "Wallet not found. Create it first." */
    | ReceiveNotFound
    /** "No derived addresses for this chain." */
    | NoAddresses
    /** The listed (index, address) pairs and the address chosen for the QR code. */
    | Selected(listing: seq<(Json, Json)>, address: Json)
    /** The answer is not one of the offered indices; the prompt asks again. */
    | Reprompted(listing: seq<(Json, Json)>)
    | ReceiveCrashed(msg: string)

  /**
   * `receive_cli` on the loaded content, for the chosen chain and the index
   * typed at the prompt.
   */
  function ReceiveCli(info: Json, chain: Chain, choice: nat): (r: ReceiveOutcome)
    ensures r == ReceiveNotFound <==> !Truthy(info)
    ensures r == NoAddresses <==>
      Truthy(info) && ChainEntries(info, ChainName(chain)).Ok? && !Truthy(ChainEntries(info, ChainName(chain)).value)
    ensures Truthy(info) && ChainEntries(info, ChainName(chain)).Raised? ==> r == ReceiveCrashed(ChainEntries(info, ChainName(chain)).msg)
    ensures r.Selected? ==>
      && ChainEntries(info, ChainName(chain)).Ok?
      && var entries := ChainEntries(info, ChainName(chain)).value;
      && entries.JArr? && choice < |entries.items| && |r.listing| == |entries.items|
      && entries.items[choice].JObj?
      && r.address == Get(entries.items[choice], "address", JStr("")).value
    ensures var found := ChainEntries(info, ChainName(chain));
      Truthy(info) && found.Ok? && found.value.JArr? && found.value.items != [] &&
      (forall k :: 0 <= k < |found.value.items| ==> found.value.items[k].JObj?) ==>
        && (choice < |found.value.items| ==> r.Selected?)
        && (choice >= |found.value.items| ==> r.Reprompted? && |r.listing| == |found.value.items|)
  {
    if !Truthy(info) then ReceiveNotFound
    else
      match ChainEntries(info, ChainName(chain))
      case Raised(m) => ReceiveCrashed(m)
      case Ok(entries) =>
        if !Truthy(entries) then NoAddresses
        else
          match EntryObjects(entries)
          case Raised(m) => ReceiveCrashed(m)
          case Ok(items) =>
            var listing := seq(|items|, k requires 0 <= k < |items| =>
              (Get(items[k], "index", JStr("?")).value, Get(items[k], "address", JStr("n/a")).value));
            if choice < |items| then Selected(listing, Get(items[choice], "address", JStr("")).value)
            else Reprompted(listing)
  }

  /**
   * A corrupt, empty or unreadable info file looks exactly like a missing one:
   * both commands report that there is no wallet.
   */
  lemma CorruptLooksAbsent(files: map<string, FileEntry>, chain: Chain, choice: nat)
    requires InfoPath in files
    requires SizeOf(files[InfoPath]) == Size(0) || !LoadOf(files[InfoPath]).Parsed?
    ensures SafeLoad(files, InfoPath) == SafeLoad(files - {InfoPath}, InfoPath) == EmptyObject
    ensures ViewWallet(SafeLoad(files, InfoPath)) == WalletNotFound
    ensures ReceiveCli(SafeLoad(files, InfoPath), chain, choice) == ReceiveNotFound
  {
  }

  /** The view row of a stored entry. */
  function EntryRow(chain: string, e: Entry): Row {
    match e
    case Derived(i, address, _, _, _) => Row(chain, JNum(i), if address != "" then JStr(address) else JStr("n/a"))
    case Failed(i, msg) => Row(chain, JNum(i), if msg != "" then JStr(msg) else JStr("n/a"))
  }

  lemma ViewRowOfEntry(chain: string, e: Entry)
    ensures ViewRow(chain, EntryJson(e)) == EntryRow(chain, e)
  {
  }

  lemma ViewRowsOfEntries(chain: string, es: seq<Entry>)
    ensures EntryObjects(EntriesJson(es)) == Ok(EntriesJson(es).items)
    ensures ViewRows(chain, EntriesJson(es).items) == seq(|es|, k requires 0 <= k < |es| => EntryRow(chain, es[k]))
  {
    forall k | 0 <= k < |es|
      ensures ViewRows(chain, EntriesJson(es).items)[k] == EntryRow(chain, es[k])
    {
      ViewRowOfEntry(chain, es[k]);
    }
  }

  /**
   * What `create_wallet` writes, `view_wallet` shows back: one row per derived
   * ADA entry then one per ATOM entry, with the address (or the error), and
   * the mnemonic.
   */
  lemma ViewAfterCreate(files: map<string, FileEntry>, mnemonic: string, ada: seq<Entry>, atom: seq<Entry>)
    ensures var stored := files[InfoPath := Document(WalletRecord(mnemonic, ada, atom))];
      ViewWallet(SafeLoad(stored, InfoPath)) ==
        Shown(seq(|ada|, k requires 0 <= k < |ada| => EntryRow("ADA", ada[k]))
                + seq(|atom|, k requires 0 <= k < |atom| => EntryRow("ATOM", atom[k])),
              if mnemonic != "" then Some(JStr(mnemonic)) else None)
  {
    var record := WalletRecord(mnemonic, ada, atom);
    assert "mnemonic" in record.fields;
    assert Truthy(record);
    assert ChainEntries(record, "ADA") == Ok(EntriesJson(ada));
    assert ChainEntries(record, "ATOM") == Ok(EntriesJson(atom));
    ViewRowsOfEntries("ADA", ada);
    ViewRowsOfEntries("ATOM", atom);
  }

  /**
   * After `create_wallet`, choosing ADA index k at the receive prompt selects
   * the k-th derived ADA entry: its address, or "" for an error entry.
   */
  lemma ReceiveAfterCreate(files: map<string, FileEntry>, mnemonic: string, ada: seq<Entry>, atom: seq<Entry>, k: nat)
    requires k < |ada|
    ensures var stored := files[InfoPath := Document(WalletRecord(mnemonic, ada, atom))];
      var r := ReceiveCli(SafeLoad(stored, InfoPath), Ada, k);
      && r.Selected? && |r.listing| == |ada|
      && r.address == (if ada[k].Derived? then JStr(ada[k].address) else JStr(""))
  {
    var record := WalletRecord(mnemonic, ada, atom);
    assert "mnemonic" in record.fields;
    assert Truthy(record);
    assert ChainEntries(record, "ADA") == Ok(EntriesJson(ada));
    assert EntriesJson(ada).items[0] == EntryJson(ada[0]);
    assert Truthy(EntriesJson(ada));
    assert EntriesJson(ada).items[k] == EntryJson(ada[k]);
  }
}
