# CyOX2 wallet scripts: address assembly, wallet files and BCH amounts

This project models, in Dafny, the part of two wallet scripts that has logic of its own once the
cryptographic and network libraries are treated as black boxes.

- **ADA/ATOM cold wallet** (`scripts/ada-atom.py`):
  - how `derive_ada_addresses` and `derive_atom_addresses` build their lists of address entries;
  - how `safe_load_json` turns any state of the wallet file into a dict without ever raising;
  - the record `create_wallet` saves;
  - how `view_wallet` and `receive_cli` react to what was loaded.
- **BCH wallet** (`scripts/bch.py`):
  - exact `Decimal` conversion of satoshis to BCH;
  - truncation of an entered amount to whole satoshis, and its positivity check;
  - blank-or-integer fee input and the single-output send request;
  - the error cases of `load_wallet_key`;
  - the existence guard of `create_wallet`;
  - the zero shown when the balance cannot be fetched.

Modules:

- `Python` (python.dfy): the Python behaviour the scripts rely on.
  - A call that returns or raises is `Outcome` (`Ok(value)` or `Raised(str(e))`).
  - JSON values as `json.load` returns them.
  - Truthiness, `dict.get` (which raises `AttributeError` on a non-dict) and `or`.
- `PyText` (pytext.dfy): `str.strip` (Unicode `isspace`), base-10 `int()` on text, and `str(n)`.
  - `int()` skips less whitespace than `strip`: the information separators U+001C..U+001F are
    whitespace to `isspace` but not to `int()`, so one anywhere in the text makes `int()` raise.
- `Decimals` (decimals.dfy): finite `decimal.Decimal` values as coefficient × 10^exponent.
  - The default context's 28-digit precision.
  - `quantize` with `ROUND_DOWN`, and its value semantics as real numbers.
- `FileSystem` (filesystem.dfy): a `FileStore` class holding the files by path.
  - An entry is a document written by `json.dump`, or any other content.
  - Other content is described by what `os.path.getsize` and `json.load` make of it.
- `AdaDerivation` (adaderivation.dfy): the canonical BIP-44 branch, the SLIP-0010 fallback and the
  Cosmos error entries.
  - The methods `DeriveAdaAddresses` and `DeriveAtomAddresses` run the loops of the source.
  - Each is proved equal to a specification function.
  - The properties are proved about those functions.
  - The canonical loop is written twice in the source, once per coin. Here it is one method,
    `RunCanonical`, with the coin as a parameter.
- `AdaWallet` (adawallet.dfy): `safe_load_json` and its backup copy, `to_str_mnemonic`,
  `is_valid_mnemonic` and the `create_wallet` record, plus `view_wallet` and `receive_cli` on the
  loaded content.
- `BchAmounts` (bchamounts.dfy): `satoshis_to_bch`, the amount and fee checks of `send_bch`, and the
  request handed to `Key.send`.
- `BchWallet` (bchwallet.dfy): the key file, `load_wallet_key`, `create_wallet`, `view_wallet`,
  `receive_bch` and `send_bch`.

The library calls are fields of function type in the oracle datatypes `KeyLibrary`, `Bip39Library`
and `Bitcash`. A call that can raise returns an `Outcome`; `KeyLibrary.hasCoin`, the attribute
lookup on `Bip44Coins`, is a plain `bool`. `bip_utils` and `bitcash` are not part of this model.
Everything the user types, and everything random, is a parameter:

- the generated mnemonic and key;
- the answers at the prompts;
- whether the backup copy succeeds.

Two behaviours of the code that one might expect to be otherwise. The model follows the code.

- A corrupt wallet file is not reported as a distinct error. `safe_load_json` returns `{}`, and
  callers then say "wallet not found" (`AdaWallet.CorruptLooksAbsent`).
- The ADA `create_wallet` does not check whether the wallet file exists, and overwrites it. Only
  `main_menu` checks `wallet_exists()` before calling it. The BCH `create_wallet` does refuse to
  overwrite (`BchWallet.CreateWallet`).

`satoshis_to_bch` is defined in `scripts/bch.py` but never called there; `view_wallet` reads the
balance from `key.get_balance('bch')` directly.

## Model

| member | source | states |
|---|---|---|
| `Python.Get` | scripts/bch.py:54 | `d.get(k, default)` succeeds exactly on dicts, giving the stored value or the default; anything else raises AttributeError with the message "'<type>' object has no attribute 'get'" |
| `Python.Or` | scripts/ada-atom.py:243 | `a or b` is `a` when `a` is truthy and `b` otherwise |
| `PyText.Strip` | scripts/bch.py:161 | `s.strip()` starts and ends with no whitespace and is a slice of `s` with only whitespace before and after it |
| `PyText.StripSlice` | scripts/bch.py:161 | what `rstrip` leaves of what `lstrip` left is a slice of the input with only whitespace around it |
| `PyText.StripPlain` | scripts/bch.py:161 | text with no whitespace at either end is left unchanged by `strip` |
| `PyText.LStrip` | scripts/bch.py:161 | the result is a suffix of the input; everything removed is whitespace; the result does not start with whitespace |
| `PyText.RStrip` | scripts/bch.py:161 | the result is a prefix of the input; everything removed is whitespace; the result does not end with whitespace |
| `PyText.StripBlank` | scripts/bch.py:161 | `s.strip()` is empty exactly when every character of `s` is whitespace |
| `PyText.StripPadded` | scripts/bch.py:161 | whitespace on both sides of a word is all that `strip` removes |
| `PyText.DecimalString` | scripts/ada-atom.py:144 | `str(n)` is a non-empty string of ASCII digits |
| `PyText.DecimalStringValue` | scripts/ada-atom.py:144 | the digits of `str(n)` spell `n` |
| `PyText.DecimalStringInjective` | scripts/ada-atom.py:144 | different non-negative integers have different `str` |
| `PyText.ParseInt` | scripts/bch.py:163 | `int(s)` raises ValueError for text that is all whitespace and for text holding an information separator (U+001C..U+001F) anywhere |
| `PyText.ParseIntPlain` | scripts/bch.py:163 | `int()` of an optional "+" or "-" followed by digit groups succeeds exactly when there are at most 4300 digits, and then gives their signed value |
| `PyText.ParseIntDigitGroups` | scripts/bch.py:163 | `int()` of an optional "+" or "-" and digit groups, with any whitespace `int()` skips around them (`isspace` whitespace other than U+001C..U+001F), is the signed value of the digits, and raises ValueError when there are more than 4300 digits |
| `PyText.ParseSignedDigits` | scripts/bch.py:163 | stripped text made of an optional sign and digit groups reads as their signed value within the digit limit, and raises beyond it |
| `PyText.ParseIntDecimalString` | scripts/bch.py:163 | `int(str(n)) == n`, with any whitespace `int()` skips around the digits, when `str(n)` has at most 4300 digits; ValueError otherwise |
| `PyText.ParseIntNegated` | scripts/bch.py:163 | `int("-" + str(n)) == -n`, with any whitespace `int()` skips around it, within the digit limit; ValueError beyond it |
| `Decimals.TruncDiv` | scripts/bch.py:151 | truncating division: the quotient times the divisor lies within one divisor of the dividend, on the side of zero |
| `Decimals.QuantizeDown` | scripts/bch.py:150-152 | the result has the target exponent and the truncated coefficient; it exists exactly when that coefficient fits in 28 digits (else InvalidOperation) |
| `Decimals.EightPlacesUnit` | scripts/bch.py:150-151 | the unit of `Decimal('0.00000001')` is 10^-8 |
| `Decimals.RescaleEightPlacesBounds` | scripts/bch.py:150-152 | cutting a non-negative decimal to eight places gives a value ≤ the original that is short by less than 10^-8, and equal to it when the original had at most eight places |
| `Decimals.Pow10Add` | scripts/bch.py:150-152 | 10^(a+b) = 10^a · 10^b, used to move between exponents |
| `BchAmounts.SatoshisToBch` | scripts/bch.py:29-32 | `None` gives `Decimal('0')`; an integer gives a Decimal with eight places equal to sats / 10^8 exactly, and raises when it needs more than 28 digits |
| `BchAmounts.AcceptAmount` | scripts/bch.py:150-154 | an accepted amount has eight places, a positive coefficient and at most 28 digits; unreadable text, NaN and infinities are refused |
| `BchAmounts.AcceptAmountExactly` | scripts/bch.py:150-154 | an amount is accepted if and only if it is finite and its value cut to whole satoshis is positive and fits in 28 digits; the accepted value is that cut |
| `BchAmounts.AcceptedAmountTruncates` | scripts/bch.py:150-152 | the accepted amount is ≤ the entered one and differs from it by less than one satoshi (10^-8 BCH), and not at all when the input had at most eight places |
| `BchAmounts.NonPositiveCutsNonPositive` | scripts/bch.py:150-154 | a decimal at or below zero stays at or below zero when cut down, so it is refused |
| `BchAmounts.BelowOneSatoshiRejected` | scripts/bch.py:153-154 | every amount below one satoshi is refused, including zero, negative amounts and positive amounts below 10^-8 |
| `BchAmounts.AcceptedAmountIsSatoshis` | scripts/bch.py:29-32 | the accepted amount is a whole number of satoshis: `satoshis_to_bch` of its coefficient gives it back |
| `BchAmounts.PromptAnswer` | scripts/bch.py:159 | the answer `Prompt.ask` returns is empty exactly when only whitespace was typed, and otherwise neither starts nor ends with whitespace |
| `BchAmounts.FeeOfAnswer` | scripts/bch.py:160-167 | a blank answer, and only that, means "auto"; a non-blank answer that `int()` reads as n ≥ 0 is accepted as n, and every accepted fee is what `int()` read; NegativeFee exactly for a non-blank integer below zero; NotAnInteger exactly for a non-blank answer `int()` refuses |
| `BchAmounts.ParseFee` | scripts/bch.py:159-170 | for the text typed at the prompt: whitespace only, and nothing else, means "auto"; otherwise the answer `Prompt.ask` returns (the typed text stripped) is read by `int()`, n ≥ 0 is accepted as n, NegativeFee exactly when it reads below zero, NotAnInteger exactly when `int()` refuses it |
| `BchAmounts.FeeOfPadded` | scripts/bch.py:159-167 | whitespace typed around an answer does not change the fee, because `Prompt.ask` strips it |
| `BchAmounts.FeeOfSignedDigits` | scripts/bch.py:161-167 | an answer of a sign and digit groups is refused as not an integer beyond 4300 digits, as negative when it is "-" and a non-zero value, and is otherwise taken as the value of its digits |
| `BchAmounts.FeeAcceptsDigitGroups` | scripts/bch.py:161-167 | a fee typed as digit groups with an optional "+" and any surrounding whitespace is taken as their value; with more than 4300 digits it is refused as not an integer |
| `BchAmounts.FeePlusSign` | scripts/bch.py:161-167 | "+5" is a fee of 5 |
| `BchAmounts.FeeLeadingZeros` | scripts/bch.py:161-167 | "007" is a fee of 7 |
| `BchAmounts.FeeUnderscore` | scripts/bch.py:161-167 | "1_000" is a fee of 1000 |
| `BchAmounts.FeeAcceptsDecimal` | scripts/bch.py:161-167 | a fee typed as the digits of n, 0 included, with any whitespace around it, is taken as n; refused when it has more than 4300 digits |
| `BchAmounts.FeeNegative` | scripts/bch.py:163-165 | "-n" with n > 0 is refused as negative; "-0" is a fee of 0; more than 4300 digits is refused as not an integer |
| `BchAmounts.PlanSend` | scripts/bch.py:148-173 | a send request is produced exactly when both the amount and the fee are accepted; an amount error is reported before the fee is considered, and with an accepted amount a refused fee reports the fee's error |
| `BchAmounts.SendRequestShape` | scripts/bch.py:184-191 | the request has exactly one output, (recipient, truncated amount, 'bch'), and passes a fee exactly when the typed fee is not blank, the value `int()` read from the prompt's answer |
| `FileSystem.SizeOf` | scripts/ada-atom.py:45 | a file written by `json.dump` is never empty |
| `FileSystem.LoadOf` | scripts/ada-atom.py:51-52 | loading a file written by `json.dump` gives back the dumped value; an empty file never parses (JSONDecodeError); other content gives its read outcome |
| `FileSystem.FileStore.WriteJson` | scripts/ada-atom.py:69-72 | the path now holds the document, and no other path changes |
| `FileSystem.FileStore.Copy` | scripts/ada-atom.py:56-61 | on success the target holds the source's content; on failure nothing changes |
| `AdaDerivation.PubkeyToHex` | scripts/ada-atom.py:99-103 | `ToHex()` when it works, otherwise the hex of the raw compressed key |
| `AdaDerivation.PrivkeyToHex` | scripts/ada-atom.py:106-110 | `ToHex()` when it works, otherwise the hex of the raw key |
| `AdaDerivation.CanonicalEntry` | scripts/ada-atom.py:121-133 | the entry for index i is built exactly when the keys and both hex conversions succeed; its address is `ToAddress()` or, when that raises, the public-key hex; it carries index i and the coin's method tag |
| `AdaDerivation.CanonicalLoop` | scripts/ada-atom.py:120-133 | after indices 0..n-1, every kept entry is the one derived for its position; a completed loop kept n entries; an aborted one stopped at the first index that raised |
| `AdaDerivation.AbortedStays` | scripts/ada-atom.py:120-137 | once the loop has raised, later indices are not attempted |
| `AdaDerivation.CanonicalPhase` | scripts/ada-atom.py:117-137 | a missing coin attribute or a raising `FromSeed` aborts with no entries; the branch completes if and only if the attribute exists, `FromSeed` succeeds and every index succeeds |
| `AdaDerivation.CanonicalEntries` | scripts/ada-atom.py:127-133 | entry k of the canonical list is a key record for index k with the coin's method tag |
| `AdaDerivation.MissingCoin` | scripts/ada-atom.py:136 | the AttributeError message for a missing coin attribute: "CARDANO_SHELLEY not in Bip44Coins" for ADA and, as on line 180, "COSMOS not in Bip44Coins" for ATOM |
| `AdaDerivation.FallbackPath` | scripts/ada-atom.py:144 | the fallback path is `m/1852'/1815'/0'/0/` followed by decimal digits that read back as the index |
| `AdaDerivation.FallbackPathInjective` | scripts/ada-atom.py:144 | each index has its own path `m/1852'/1815'/0'/0/{i}` |
| `AdaDerivation.FallbackEntry` | scripts/ada-atom.py:143-154 | the fallback entry for i never raises: it is a record tagged "ed25519_fallback" whose address is its public key, or `{"index": i, "error": str(e)}` |
| `AdaDerivation.FallbackEntries` | scripts/ada-atom.py:142-155 | the fallback loop yields one entry per index, in order |
| `AdaDerivation.CosmosFailures` | scripts/ada-atom.py:181-183 | the ATOM except-branch yields one error entry per index, all with the same "Cosmos derive failed: " message |
| `AdaDerivation.AdaAddresses` | scripts/ada-atom.py:114-155 | `derive_ada_addresses` returns at least `count` entries, so the preview's `[0]` exists when count is 3 |
| `AdaDerivation.AtomAddresses` | scripts/ada-atom.py:158-184 | `derive_atom_addresses` returns at least `count` entries |
| `AdaDerivation.RunCanonical` | scripts/ada-atom.py:116-137 | the loop computes exactly the canonical phase (entries kept so far, and the exception if one was raised) |
| `AdaDerivation.DeriveAdaAddresses` | scripts/ada-atom.py:114-155 | the method returns exactly the list the canonical-then-fallback specification describes |
| `AdaDerivation.DeriveAtomAddresses` | scripts/ada-atom.py:158-184 | the method returns exactly the list the canonical-then-error-entries specification describes |
| `AdaDerivation.AdaCanonicalSuccess` | scripts/ada-atom.py:117-134 | a completed canonical ADA branch gives exactly `count` entries, entry i for index i tagged "bip44_cardano_shelley", and the fallback derivation has no influence |
| `AdaDerivation.SameCanonicalLoop` | scripts/ada-atom.py:120-133 | the canonical loop never calls the SLIP-0010 derivation |
| `AdaDerivation.AdaFallbackKeepsPartial` | scripts/ada-atom.py:116-155 | after a canonical failure the k entries already built are kept, followed by the `count` fallback entries (length k + count); k = 0 when the attribute is missing or `FromSeed` raises |
| `AdaDerivation.AdaFallbackNeverAborts` | scripts/ada-atom.py:141-155 | the fallback gives one entry for every index 0..count-1; each success is tagged "ed25519_fallback", has address = pub and comes from a successful derivation on its path |
| `AdaDerivation.AdaDuplicateIndex` | scripts/ada-atom.py:116-155 | when the canonical branch fails after k > 0 entries, the list is longer than `count` and index 0 appears at positions 0 and k |
| `AdaDerivation.AtomResults` | scripts/ada-atom.py:160-184 | success gives `count` entries tagged "bip44_cosmos" for indices 0..count-1; failure keeps the partial entries and adds `count` error entries with messages "Cosmos derive failed: " + reason |
| `AdaWallet.SafeLoad` | scripts/ada-atom.py:40-66 | never raises; gives the parsed content of an existing, non-empty, loadable file, and `{}` otherwise |
| `AdaWallet.SafeLoadEmptyCases` | scripts/ada-atom.py:42-66 | an absent, empty, unparseable or unreadable file gives `{}` |
| `AdaWallet.SafeLoadJson` | scripts/ada-atom.py:40-66 | returns the value of `SafeLoad`; only in the JSON-decode case is the file copied to the backup path, and a failed copy still returns `{}` |
| `AdaWallet.ToStrMnemonic` | scripts/ada-atom.py:75-81 | a string is returned as is; an object gives `ToStr()`, or `str(obj)` when that raises |
| `AdaWallet.IsValidMnemonic` | scripts/ada-atom.py:84-96 | the validator's answer, or, when the validator raises, whether a seed can be generated |
| `AdaWallet.EntryJson` | scripts/ada-atom.py:127-133 | a record entry is saved with keys index, address, pub, priv, method; an error entry with keys index, error |
| `AdaWallet.EntriesJson` | scripts/ada-atom.py:199-205 | the saved list holds one dict per entry, in order |
| `AdaWallet.WalletRecord` | scripts/ada-atom.py:202-206 | the record has exactly the keys mnemonic, mnemonic_type = "BIP39" and chains, and chains has exactly the keys ADA and ATOM holding the two lists |
| `AdaWallet.Preview` | scripts/ada-atom.py:217-218 | the preview cell is what `.get("address", "error")` gives on the saved dict of the entry |
| `AdaWallet.CreateWalletResult` | scripts/ada-atom.py:188-218 | a raising generator gives its exception; a generated mnemonic is refused exactly when it fails validation; a valid one whose seed generates is always saved, and one whose seed generation raises gives that exception; a saved record is built from the validated mnemonic with three ADA and three ATOM derivations from its seed, and the previews show entry 0 of each list |
| `AdaWallet.CreateWallet` | scripts/ada-atom.py:188-219 | writes the record to the info path when it was built, replacing any earlier file, and changes nothing otherwise |
| `AdaWallet.ChainEntries` | scripts/ada-atom.py:241 | `info.get("chains", {}).get(chain, [])` succeeds exactly when both levels are dicts |
| `AdaWallet.FirstNonObject` | scripts/ada-atom.py:241-242 | the position of the first list element that is not a dict, every earlier one being a dict |
| `AdaWallet.EntryObjects` | scripts/ada-atom.py:241-244 | iterating and calling `.get` works for a list of dicts, and only for that or for an empty value; otherwise it raises AttributeError naming a non-dict element's type, or TypeError "'<type>' object is not iterable" for null, booleans and numbers |
| `AdaWallet.ViewWallet` | scripts/ada-atom.py:229-255 | an empty (falsy) content, and only that, is reported as "wallet not found"; otherwise rows come from a dict, and the mnemonic is shown exactly when it is set |
| `AdaWallet.ReceiveCli` | scripts/ada-atom.py:266-287 | falsy content, and only that, is "wallet not found"; "no addresses" exactly when the content is truthy and the chain's entries are falsy; a failing `.get` on the content raises; for a non-empty list of dicts an offered index selects an address and any other answer asks again; the selected address is `entries[choice].get("address", "")` |
| `AdaWallet.CorruptLooksAbsent` | scripts/ada-atom.py:229-233 | an empty, corrupt or unreadable file loads exactly like a missing one, and `view_wallet` and `receive_cli` both report that there is no wallet |
| `AdaWallet.ViewRow` | scripts/ada-atom.py:242-244 | a row shows the chain, `entry.get("index", "-")`, and the address if truthy, else the error if truthy, else "n/a", so the note is never falsy |
| `AdaWallet.ViewRows` | scripts/ada-atom.py:241-244 | one row per stored entry, in order |
| `AdaWallet.ViewRowOfEntry` | scripts/ada-atom.py:242-244 | the view row of a saved entry shows its index and its address, or its error, or "n/a" |
| `AdaWallet.ViewRowsOfEntries` | scripts/ada-atom.py:240-244 | a saved list of entries is iterated without error and gives one row per entry |
| `AdaWallet.ViewAfterCreate` | scripts/ada-atom.py:202-255 | once the record is saved, `view_wallet` lists every ADA entry and then every ATOM entry, and shows the mnemonic when it is not empty |
| `AdaWallet.ReceiveAfterCreate` | scripts/ada-atom.py:272-286 | once the record is saved, choosing ADA index k selects the k-th entry's address (or "" for an error entry) |
| `BchWallet.WalletInfo` | scripts/bch.py:37-46 | the saved record has exactly the keys wallet_name, address, private_key_wif and note, holding the key's address and WIF |
| `BchWallet.LoadWalletKey` | scripts/bch.py:48-57 | FileNotFoundError exactly when the file is absent; a decode or read error and a non-dict content give their own errors; the "WIF missing" ValueError exactly when the loaded dict has no truthy private_key_wif; a truthy WIF gives what `Key(wif)` gives, and every loaded key comes from the stored WIF |
| `BchWallet.CreateWallet` | scripts/bch.py:60-67 | writes exactly when no info file exists, and then only the new key's record; an existing file, and so its WIF, is left unchanged |
| `BchWallet.CreateThenLoad` | scripts/bch.py:37-57 | loading right after creating gives the key built from the WIF just written |
| `BchWallet.ViewWallet` | scripts/bch.py:76-95 | shows the loaded key's address and WIF with the fetched balance, or 0 when fetching fails |
| `BchWallet.BalanceFailureShowsZero` | scripts/bch.py:88-95 | a failed balance lookup is shown as a balance of 0, not as an error |
| `BchWallet.ReceiveBch` | scripts/bch.py:104-115 | shows the loaded key's address exactly when the key loads |
| `BchWallet.SendBch` | scripts/bch.py:135-199 | `key.send` is called exactly when the key loads and both inputs are accepted, and with exactly the planned request, its txid or exception reported; a key that fails to load reports the load error; with a loaded key, refused input reports exactly the planning error |
| `BchWallet.NoSendOnInvalidInput` | scripts/bch.py:148-173 | when the amount or fee is refused, nothing is sent and the outcome does not depend on the broadcaster |
| `BchWallet.SentRequest` | scripts/bch.py:182-191 | a sent transaction has one output (recipient, truncated amount, 'bch'), and the fee keyword is absent exactly when the fee was left blank |

## Left out

- Cryptography and encoding are oracle calls whose results are not constrained: key generation, BIP-32/BIP-44/SLIP-0010 derivation, address encoding, hex and WIF conversion. Their libraries are not part of this model.
- The network is an oracle too: the balance lookup and the broadcast. Nothing is modelled about their effects.
- `BchAmounts.PlanSend`: the output carries the truncated `Decimal`, not `float(amount_bch)`. The float conversion is floating point and is not modelled.
- The amount text is not parsed. What `Decimal(text)` makes of it is the input (`AmountInput`: a finite decimal, NaN, sNaN, an infinity, or unreadable).
- `BchAmounts.SatoshisToBch`: `Decimal(1e8)` is taken to be exactly 10^8, which the float 1e8 is.
- `int()` accepts only ASCII digits here. Python also accepts other Unicode decimal digits.
- `BchAmounts.PromptAnswer`: of rich's `Prompt.ask` only the stripping of the answer is modelled; the typed text is the input, and display and the default-value handling beyond "" are not modelled.
- `PyText.ParseInt` refuses more than 4300 digits, the default limit of CPython 3.11 and later and of the 2022 security releases of 3.7 to 3.10. Older interpreters have no limit, and the limit can be changed with `PYTHONINTMAXSTRDIGITS` or `sys.set_int_max_str_digits`; neither is modelled.
- Console output is not modelled: panels, tables, colours, prompts and QR codes. `str(idx)` is not modelled; the rows keep the JSON values.
- `AdaWallet.ViewWallet`, `AdaWallet.ReceiveCli`: a table cell that is not a string (a number, a list or a dict stored as an address or error) makes rich's `add_row` raise NotRenderableError in the source; the model shows the row with the JSON value instead.
- A prompt answer outside the offered choices is the outcome `Reprompted`. Rich's re-asking loop is not modelled.
- Directory creation (`ensure_dir`, `os.makedirs`) is not modelled, and neither are failures of `open(..., "w")` or `json.dump`: writes always succeed.
- The real size of a written file is not modelled, only that it is not empty.
- JSON numbers are integers. Floats in a wallet file are not modelled. JSON objects are maps, so key order is not modelled.
- `count` is a natural number. A negative `count`, for which `range` is empty, is not modelled.
- An exception that is not an `Exception` is not modelled. Such an exception would pass the `except Exception` clauses, except the bare `except` in `pubkey_to_hex` and `privkey_to_hex`, which catches it.
- Exception messages are modelled where the code builds them ("CARDANO_SHELLEY not in Bip44Coins", "Cosmos derive failed: ...", the two `load_wallet_key` errors) and for the AttributeError and TypeError Python raises on a non-dict `.get` or a non-iterable value. The messages of library and file exceptions are whatever the oracle or the file entry gives.
- Menus and process orchestration are not modelled: `main_menu`, including its `wallet_exists()` check before the ADA `create_wallet`.
