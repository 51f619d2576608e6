/**
 * The key file and the commands of the BCH wallet. The wallet library
 * (key generation, WIF decoding, balance lookup, broadcasting) is an oracle;
 * the file is one entry of the file store.
 */
module BchWallet {
  import opened Python
  import opened Decimals
  import opened FileSystem
  import opened BchAmounts

  const InfoPath: string := "wallet_BCH/wallet_info.json"
  const WalletName: string := "CyOX2_Wallet_BCH"
  const SafetyNote: string := "Store this file safely. Anyone with WIF can spend your BCH."

  /** A bitcash `Key`: its WIF and its address. */
  datatype BchKey = BchKey(wif: string, address: string)

  /**
   * The library calls: `Key(wif)`, `Decimal(key.get_balance('bch'))`, and
   * `key.send(outputs)` / `key.send(outputs, fee=n)`, which returns the txid.
   */
  datatype Bitcash = Bitcash(
    fromWif: Json -> Outcome<BchKey>,
    balance: BchKey -> Outcome<Decimal>,
    send: (BchKey, SendRequest) -> Outcome<string>)

  /** The dict `save_wallet_info` writes. */
  function WalletInfo(key: BchKey): (j: Json)
    ensures j.JObj? && j.fields.Keys == {"wallet_name", "address", "private_key_wif", "note"}
    ensures j.fields["private_key_wif"] == JStr(key.wif) && j.fields["address"] == JStr(key.address)
  {
    JObj(map[
      "wallet_name" := JStr(WalletName),
      "address" := JStr(key.address),
      "private_key_wif" := JStr(key.wif),
      "note" := JStr(SafetyNote)])
  }

  datatype LoadError =
    /** FileNotFoundError "Wallet info not found. Create wallet first." */
    | KeyFileMissing
    /** `json.load` raised JSONDecodeError. */
    | KeyFileCorrupt(msg: string)
    /** Opening or reading the file raised. */
    | KeyFileUnreadable(msg: string)
    /** The content is not a dict, so `info.get` raised AttributeError. */
    | KeyFileNotObject
    /** ValueError "WIF missing from wallet info." */
    | WifMissing
    /** `Key(wif)` raised. */
    | WifRejected(msg: string)

  /**
   * `load_wallet_key()`: the key built from the stored WIF. A missing file and
   * a missing or empty WIF are the two errors the function raises itself.
   */
  function LoadWalletKey(files: map<string, FileEntry>, lib: Bitcash): (r: Result<BchKey, LoadError>)
    ensures r == Failure(KeyFileMissing) <==> InfoPath !in files
    ensures r == Failure(WifMissing) <==>
      && InfoPath in files && LoadOf(files[InfoPath]).Parsed?
      && var info := LoadOf(files[InfoPath]).value;
      && info.JObj? && !Truthy(Get(info, "private_key_wif", JNull).value)
    ensures r.Success? ==>
      && InfoPath in files && LoadOf(files[InfoPath]).Parsed?
      && var info := LoadOf(files[InfoPath]).value;
      && info.JObj? && "private_key_wif" in info.fields
      && Truthy(info.fields["private_key_wif"])
      && lib.fromWif(info.fields["private_key_wif"]) == Ok(r.value)
    ensures InfoPath in files && LoadOf(files[InfoPath]).DecodeError? ==> r == Failure(KeyFileCorrupt(LoadOf(files[InfoPath]).msg))
    ensures InfoPath in files && LoadOf(files[InfoPath]).ReadError? ==> r == Failure(KeyFileUnreadable(LoadOf(files[InfoPath]).msg))
    ensures InfoPath in files && LoadOf(files[InfoPath]).Parsed? && !LoadOf(files[InfoPath]).value.JObj? ==> r == Failure(KeyFileNotObject)
    ensures InfoPath in files && LoadOf(files[InfoPath]).Parsed? ==>
      var info := LoadOf(files[InfoPath]).value;
      info.JObj? && Truthy(Get(info, "private_key_wif", JNull).value) ==>
        r == match lib.fromWif(Get(info, "private_key_wif", JNull).value)
             case Ok(k) => Success(k)
             case Raised(m) => Failure(WifRejected(m))
  {
    if InfoPath !in files then Failure(KeyFileMissing)
    else
      match LoadOf(files[InfoPath])
      case DecodeError(m) => Failure(KeyFileCorrupt(m))
      case ReadError(m) => Failure(KeyFileUnreadable(m))
      case Parsed(info) =>
        match Get(info, "private_key_wif", JNull)
        case Raised(_) => Failure(KeyFileNotObject)
        case Ok(wif) =>
          if !Truthy(wif) then Failure(WifMissing)
          else
            match lib.fromWif(wif)
            case Raised(m) => Failure(WifRejected(m))
            case Ok(key) => Success(key)
  }

  /**
   * `create_wallet()` with `newKey` the key `Key()` would generate: an existing
   * info file is left as it is; otherwise the new key's record is written.
   */
  method CreateWallet(store: FileStore, newKey: BchKey) returns (created: bool)
    modifies store
    ensures created <==> InfoPath !in old(store.files)
    ensures store.files == if created then old(store.files)[InfoPath := Document(WalletInfo(newKey))] else old(store.files)
  {
    if store.Exists(InfoPath) {
      return false;
    }
    store.WriteJson(InfoPath, WalletInfo(newKey));
    created := true;
  }

  /** Loading right after creating gives back the key built from the WIF just written. */
  lemma CreateThenLoad(files: map<string, FileEntry>, lib: Bitcash, key: BchKey)
    requires key.wif != ""
    ensures LoadWalletKey(files[InfoPath := Document(WalletInfo(key))], lib) ==
      match lib.fromWif(JStr(key.wif))
      case Ok(k) => Success(k)
      case Raised(m) => Failure(WifRejected(m))
  {
  }

  datatype View =
    /** "Wallet not found. Please create one first." */
    | ViewNoWallet
    | ViewLoadFailed(error: LoadError)
    | ViewShown(address: string, balance: Decimal, wif: string)

  /** `view_wallet()`: a balance that cannot be fetched or read is shown as 0. */
  function ViewWallet(files: map<string, FileEntry>, lib: Bitcash): (r: View)
    ensures r == ViewNoWallet <==> InfoPath !in files
    ensures r.ViewShown? <==> LoadWalletKey(files, lib).Success?
    ensures r.ViewShown? ==>
      var key := LoadWalletKey(files, lib).value;
      && r.address == key.address && r.wif == key.wif
      && r.balance == (if lib.balance(key).Ok? then lib.balance(key).value else Zero)
  {
    if InfoPath !in files then ViewNoWallet
    else
      match LoadWalletKey(files, lib)
      case Failure(e) => ViewLoadFailed(e)
      case Success(key) =>
        var balance := match lib.balance(key)
          case Ok(b) => b
          case Raised(_) => Zero;
        ViewShown(key.address, balance, key.wif)
  }

  /** A failed balance lookup shows a balance of zero, not an error. */
  lemma BalanceFailureShowsZero(files: map<string, FileEntry>, lib: Bitcash)
    requires LoadWalletKey(files, lib).Success? && lib.balance(LoadWalletKey(files, lib).value).Raised?
    ensures ViewWallet(files, lib).ViewShown? && Value(ViewWallet(files, lib).balance) == 0.0
  {
  }

  datatype Receive = ReceiveNoWallet | ReceiveLoadFailed(error: LoadError) | ReceiveAddress(address: string)

  /** `receive_bch()`: the one address of the loaded key. */
  function ReceiveBch(files: map<string, FileEntry>, lib: Bitcash): (r: Receive)
    ensures r == ReceiveNoWallet <==> InfoPath !in files
    ensures r.ReceiveAddress? <==> LoadWalletKey(files, lib).Success?
    ensures r.ReceiveAddress? ==> r.address == LoadWalletKey(files, lib).value.address
  {
    if InfoPath !in files then ReceiveNoWallet
    else
      match LoadWalletKey(files, lib)
      case Failure(e) => ReceiveLoadFailed(e)
      case Success(key) => ReceiveAddress(key.address)
  }

  datatype Send =
    /** "Wallet not found." */
    | SendNoWallet
    | SendLoadFailed(error: LoadError)
    /** "Invalid input. Reason: ..." or "Invalid fee input: ...": nothing is sent. */
    | SendRejected(input: SendInputError)
    | Sent(request: SendRequest, txid: string)
    /** "Error sending BCH: ..." */
    | SendFailed(request: SendRequest, msg: string)

  /**
   * `send_bch()` with the recipient, the amount as `Decimal` read it, and the
   * fee text typed at the prompts.
   */
  function SendBch(files: map<string, FileEntry>, lib: Bitcash, toAddr: string, amount: AmountInput, feeText: string): (r: Send)
    ensures r == SendNoWallet <==> InfoPath !in files
    ensures r.Sent? || r.SendFailed? <==>
      LoadWalletKey(files, lib).Success? && PlanSend(toAddr, amount, feeText).Success?
    ensures r.Sent? || r.SendFailed? ==> r.request == PlanSend(toAddr, amount, feeText).value
    ensures r.Sent? ==> lib.send(LoadWalletKey(files, lib).value, r.request) == Ok(r.txid)
    ensures r.SendRejected? ==> PlanSend(toAddr, amount, feeText) == Failure(r.input)
    ensures InfoPath in files && LoadWalletKey(files, lib).Failure? ==> r == SendLoadFailed(LoadWalletKey(files, lib).error)
    ensures LoadWalletKey(files, lib).Success? && PlanSend(toAddr, amount, feeText).Failure? ==>
      r == SendRejected(PlanSend(toAddr, amount, feeText).error)
    ensures r.SendFailed? ==> lib.send(LoadWalletKey(files, lib).value, r.request) == Raised(r.msg)
  {
    if InfoPath !in files then SendNoWallet
    else
      match LoadWalletKey(files, lib)
      case Failure(e) => SendLoadFailed(e)
      case Success(key) =>
        match PlanSend(toAddr, amount, feeText)
        case Failure(e) => SendRejected(e)
        case Success(request) =>
          match lib.send(key, request)
          case Ok(txid) => Sent(request, txid)
          case Raised(m) => SendFailed(request, m)
  }

  /**
   * Invalid input sends nothing: when the amount or the fee is refused, the
   * outcome does not depend on what broadcasting would do.
   */
  lemma NoSendOnInvalidInput(files: map<string, FileEntry>, lib: Bitcash, other: Bitcash,
                             toAddr: string, amount: AmountInput, feeText: string)
    requires other == lib.(send := other.send)
    requires PlanSend(toAddr, amount, feeText).Failure?
    ensures SendBch(files, other, toAddr, amount, feeText) == SendBch(files, lib, toAddr, amount, feeText)
    ensures !SendBch(files, lib, toAddr, amount, feeText).Sent?
  {
  }

  /**
   * A send pays exactly one output, (recipient, the amount truncated to whole
   * satoshis, 'bch'), and passes a fee exactly when one was typed.
   */
  lemma SentRequest(files: map<string, FileEntry>, lib: Bitcash, toAddr: string, amount: AmountInput, feeText: string)
    requires SendBch(files, lib, toAddr, amount, feeText).Sent?
    ensures var req := SendBch(files, lib, toAddr, amount, feeText).request;
      && AcceptAmount(amount).Success?
      && req.outputs == [Output(toAddr, AcceptAmount(amount).value, "bch")]
      && (req.fee.None? <==> ParseFee(feeText) == Success(None))
  {
    SendRequestShape(toAddr, amount, feeText);
  }
}
