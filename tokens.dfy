/**
 * The token ledger (tokens.rs): per-address balances with a total-supply
 * counter, the zero-rejecting transfer, burn and send, the balance query,
 * account creation at instantiation and token-metadata validation.
 *
 * Each entry point is a method on the storage that updates `BALANCES` and
 * `TOKEN_INFO` step by step, as the source does, and is specified by a
 * function on the ledger value (`Transfer`, `Burn`, `OpenAccounts`).
 */
module Tokens {
  import opened Uint
  import opened Errors
  import opened Msg
  import opened Utf8
  import opened State

  /* ---------------------------------------------------------------------- */
  /* Balances and the supply they add up to                                   */
  /* ---------------------------------------------------------------------- */

  /**
   * `query_balance`: the stored balance, or 0 for an address with no entry
   * (absence is not an error).
   */
  function BalanceOf(l: Ledger, address: Addr): (balance: Uint128)
    ensures address !in l.balances ==> balance == 0
    ensures address in l.balances ==> balance == l.balances[address]
  {
    if address in l.balances then l.balances[address] else 0
  }

  /** The sum of all stored balances. */
  ghost function Total(b: map<Addr, Uint128>): nat
    decreases |b|
  {
    if b == map[] then 0
    else
      var a :| a in b;
      b[a] + Total(b - {a})
  }

  /** The balances add up to the recorded total supply. */
  ghost predicate Consistent(l: Ledger) {
    Total(l.balances) == l.info.totalSupply
  }

  /** Any entry can be split off the sum, whichever one `Total` picks first. */
  lemma {:induction false} TotalRemove(b: map<Addr, Uint128>, a: Addr)
    requires a in b
    ensures Total(b) == b[a] + Total(b - {a})
    decreases |b|
  {
    var x :| x in b && Total(b) == b[x] + Total(b - {x});
    if x != a {
      TotalRemove(b - {x}, a);
      TotalRemove(b - {a}, x);
      assert b - {x} - {a} == b - {a} - {x};
    }
  }

  /** Overwriting one entry changes the sum by the difference. */
  lemma TotalUpdate(b: map<Addr, Uint128>, a: Addr, v: Uint128)
    ensures Total(b[a := v]) + (if a in b then b[a] else 0) == Total(b) + v
  {
    TotalRemove(b[a := v], a);
    assert b[a := v] - {a} == b - {a};
    if a in b {
      TotalRemove(b, a);
    } else {
      assert b - {a} == b;
    }
  }

  /** Two distinct balances together are at most the sum of all balances. */
  lemma TotalPair(l: Ledger, x: Addr, y: Addr)
    requires x != y
    ensures BalanceOf(l, x) + BalanceOf(l, y) <= Total(l.balances)
  {
    var b := l.balances;
    if x in b {
      TotalRemove(b, x);
      if y in b {
        TotalRemove(b - {x}, y);
      }
    } else if y in b {
      TotalRemove(b, y);
    }
  }

  /* ---------------------------------------------------------------------- */
  /* Token metadata validation                                                */
  /* ---------------------------------------------------------------------- */

  /** A byte `is_valid_symbol` accepts: `-`, `A`-`Z` or `a`-`z`. */
  predicate AllowedSymbolByte(b: Byte) {
    b == 45 || (65 <= b && b <= 90) || (97 <= b && b <= 122)
  }

  /** The same set of characters. */
  predicate SymbolChar(c: char) {
    c == '-' || ('A' <= c && c <= 'Z') || ('a' <= c && c <= 'z')
  }

  /** `is_valid_name`: 3 to 50 UTF-8 bytes. */
  predicate IsValidName(name: string) {
    3 <= |Encode(name)| <= 50
  }

  /** What `is_valid_symbol` checks: 3 to 12 UTF-8 bytes, each an allowed one. */
  predicate ValidSymbol(symbol: string) {
    var bytes := Encode(symbol);
    3 <= |bytes| <= 12 && forall i :: 0 <= i < |bytes| ==> AllowedSymbolByte(bytes[i])
  }

  /**
   * Checking bytes is checking characters: a symbol is valid exactly when it
   * is 3 to 12 characters long, each `-` or an ASCII letter (the bytes of a
   * multi-byte character are never allowed).
   */
  lemma SymbolIsAscii(symbol: string)
    ensures ValidSymbol(symbol) <==>
      3 <= |symbol| <= 12 && forall i :: 0 <= i < |symbol| ==> SymbolChar(symbol[i])
  {
    var bytes := Encode(symbol);
    EncodeBelow80(symbol);
    if forall i :: 0 <= i < |bytes| ==> AllowedSymbolByte(bytes[i]) {
      assert Ascii(symbol);
    }
    if forall i :: 0 <= i < |symbol| ==> SymbolChar(symbol[i]) {
      assert Ascii(symbol);
    }
    if Ascii(symbol) {
      AsciiEncode(symbol);
    }
  }

  /** `is_valid_symbol`: a loop over the symbol's bytes. */
  method IsValidSymbol(symbol: string) returns (ok: bool)
    ensures ok == ValidSymbol(symbol)
  {
    var bytes := Encode(symbol);
    if |bytes| < 3 || |bytes| > 12 {
      return false;
    }
    for i := 0 to |bytes|
      invariant forall j :: 0 <= j < i ==> AllowedSymbolByte(bytes[j])
    {
      var byte := bytes[i];
      if byte != 45 && (byte < 65 || byte > 90) && (byte < 97 || byte > 122) {
        return false;
      }
    }
    return true;
  }

  /**
   * What `TokenInstantiateInfo::validate` decides: the name, then the
   * symbol, then the decimals, each failing with its own message.
   */
  function Validation(info: TokenInstantiateInfo): (r: Result<()>)
    ensures r.Ok? <==>
      && 3 <= |Encode(info.name)| <= 50
      && 3 <= |info.symbol| <= 12
      && (forall i :: 0 <= i < |info.symbol| ==> SymbolChar(info.symbol[i]))
      && info.decimals <= 18
    ensures !IsValidName(info.name) ==> r == Err(GenericErr(NameFormat))
    ensures IsValidName(info.name) && !ValidSymbol(info.symbol) ==> r == Err(GenericErr(SymbolFormat))
    ensures IsValidName(info.name) && ValidSymbol(info.symbol) && info.decimals > 18 ==>
      r == Err(GenericErr(DecimalsTooLarge))
    ensures r.Err? ==> r.error.GenericErr?
  {
    SymbolIsAscii(info.symbol);
    if !IsValidName(info.name) then Err(GenericErr(NameFormat))
    else if !ValidSymbol(info.symbol) then Err(GenericErr(SymbolFormat))
    else if info.decimals > 18 then Err(GenericErr(DecimalsTooLarge))
    else Ok(())
  }

  /** `TokenInstantiateInfo::validate`. */
  method Validate(info: TokenInstantiateInfo) returns (r: Result<()>)
    ensures r == Validation(info)
  {
    if !IsValidName(info.name) {
      return Err(GenericErr(NameFormat));
    }
    var symbolOk := IsValidSymbol(info.symbol);
    if !symbolOk {
      return Err(GenericErr(SymbolFormat));
    }
    if info.decimals > 18 {
      return Err(GenericErr(DecimalsTooLarge));
    }
    return Ok(());
  }

  /* ---------------------------------------------------------------------- */
  /* Initial accounts                                                         */
  /* ---------------------------------------------------------------------- */

  /** The sum of the listed amounts. */
  function AmountSum(rows: seq<Coin>): nat {
    if rows == [] then 0 else AmountSum(rows[..|rows| - 1]) + rows[|rows| - 1].amount
  }

  /** The amount the last row for `a` lists, if any row does. */
  function LastAmount(rows: seq<Coin>, a: Addr): Option<Uint128> {
    if rows == [] then None
    else if rows[|rows| - 1].address == a then Some(rows[|rows| - 1].amount)
    else LastAmount(rows[..|rows| - 1], a)
  }

  /** Every address is listed at most once. */
  ghost predicate DistinctAddresses(rows: seq<Coin>) {
    forall i, j :: 0 <= i < j < |rows| ==> rows[i].address != rows[j].address
  }

  /**
   * What `create_accounts` computes from balances `b`: every row's amount
   * saved under its address, and the running total supply, which panics
   * when it would pass the `Uint128` range.
   */
  function OpenAccounts(b: map<Addr, Uint128>, rows: seq<Coin>): Result<(map<Addr, Uint128>, Uint128)> {
    if rows == [] then Ok((b, 0))
    else
      var acc :- OpenAccounts(b, rows[..|rows| - 1]);
      var row := rows[|rows| - 1];
      if acc.1 + row.amount >= TWO_128 then Err(Panicked(AddOverflow))
      else Ok((acc.0[row.address := row.amount], acc.1 + row.amount))
  }

  lemma {:induction false} AmountSumPrefix(rows: seq<Coin>, k: nat)
    requires k <= |rows|
    ensures AmountSum(rows[..k]) <= AmountSum(rows)
    decreases |rows|
  {
    if k < |rows| {
      assert rows[..k] == rows[..|rows| - 1][..k];
      AmountSumPrefix(rows[..|rows| - 1], k);
    } else {
      assert rows[..k] == rows;
    }
  }

  /**
   * The returned supply is the sum of all listed amounts; the only failure
   * is the overflow panic, exactly when that sum leaves the `Uint128` range.
   */
  lemma {:induction false} OpenAccountsSupply(b: map<Addr, Uint128>, rows: seq<Coin>)
    ensures OpenAccounts(b, rows).Ok? <==> AmountSum(rows) < TWO_128
    ensures OpenAccounts(b, rows).Ok? ==> OpenAccounts(b, rows).value.1 == AmountSum(rows)
    ensures OpenAccounts(b, rows).Err? ==> OpenAccounts(b, rows).error == Panicked(AddOverflow)
    decreases |rows|
  {
    if rows != [] {
      OpenAccountsSupply(b, rows[..|rows| - 1]);
    }
  }

  /**
   * After account creation a listed address holds the amount of its LAST
   * row (a repeated address keeps only its last amount); an unlisted one
   * keeps what it had.
   */
  lemma {:induction false} OpenAccountsEntry(b: map<Addr, Uint128>, rows: seq<Coin>, a: Addr)
    requires OpenAccounts(b, rows).Ok?
    ensures var m := OpenAccounts(b, rows).value.0;
      && (a in m <==> a in b || LastAmount(rows, a).Some?)
      && (LastAmount(rows, a).Some? ==> m[a] == LastAmount(rows, a).value)
      && (LastAmount(rows, a).None? && a in b ==> m[a] == b[a])
    decreases |rows|
  {
    if rows != [] {
      OpenAccountsEntry(b, rows[..|rows| - 1], a);
    }
  }

  /**
   * Starting from no balances, with every address listed once, the balances
   * add up to the returned supply.
   */
  lemma {:induction false} OpenAccountsDistinct(rows: seq<Coin>)
    requires DistinctAddresses(rows)
    requires OpenAccounts(map[], rows).Ok?
    ensures Total(OpenAccounts(map[], rows).value.0) == OpenAccounts(map[], rows).value.1
    decreases |rows|
  {
    if rows != [] {
      var init := rows[..|rows| - 1];
      var row := rows[|rows| - 1];
      assert DistinctAddresses(init);
      OpenAccountsDistinct(init);
      var acc := OpenAccounts(map[], init).value;
      assert LastAmount(init, row.address).None? by {
        LastAmountNone(init, row.address);
      }
      OpenAccountsEntry(map[], init, row.address);
      TotalUpdate(acc.0, row.address, row.amount);
    }
  }

  lemma {:induction false} LastAmountNone(rows: seq<Coin>, a: Addr)
    requires forall i :: 0 <= i < |rows| ==> rows[i].address != a
    ensures LastAmount(rows, a).None?
    decreases |rows|
  {
    if rows != [] {
      LastAmountNone(rows[..|rows| - 1], a);
    }
  }

  /**
   * A repeated address: the supply counts both amounts but the balance keeps
   * only the last, so the balances no longer add up to the supply.
   */
  lemma DuplicateAddressBreaksSupply()
    ensures var rows := [Coin("a", 5), Coin("a", 7)];
      && OpenAccounts(map[], rows) == Ok((map["a" := 7], 12))
      && Total(map["a" := 7]) == 7
  {
    var rows := [Coin("a", 5), Coin("a", 7)];
    assert rows[..1] == [Coin("a", 5)];
    assert rows[..1][..0] == [];
    assert OpenAccounts(map[], rows[..1]) == Ok((map["a" := 5], 5));
    var m: map<Addr, Uint128> := map["a" := 7];
    var m5: map<Addr, Uint128> := map["a" := 5];
    assert m5["a" := 7] == m;
    TotalRemove(m, "a");
    assert m - {"a"} == map[];
  }

  /**
   * `create_accounts`: saves each row's balance in turn and accumulates the
   * total supply; on the overflow panic the host discards the saved rows.
   */
  method CreateAccounts(deps: Storage, accounts: seq<Coin>) returns (r: Result<Uint128>)
    modifies deps
    ensures var o := OpenAccounts(old(deps.balances), accounts);
      && r == (if o.Ok? then Ok(o.value.1) else Err(o.error))
      && deps.Snapshot() == old(deps.Snapshot()).(ledger := Ledger(
           if o.Ok? then o.value.0 else old(deps.balances), old(deps.tokenInfo)))
  {
    ghost var start := deps.balances;
    var saved := deps.Snapshot();
    var totalSupply: Uint128 := 0;
    for i := 0 to |accounts|
      invariant OpenAccounts(start, accounts[..i]) == Ok((deps.balances, totalSupply))
      invariant deps.Snapshot() == saved.(ledger := saved.ledger.(balances := deps.balances))
    {
      var row := accounts[i];
      assert accounts[..i + 1][..i] == accounts[..i];
      deps.balances := deps.balances[row.address := row.amount];
      if totalSupply + row.amount >= TWO_128 {
        OpenAccountsSupply(start, accounts[..i + 1]);
        AmountSumPrefix(accounts, i + 1);
        OpenAccountsSupply(start, accounts);
        deps.Rollback(saved);
        return Err(Panicked(AddOverflow));
      }
      totalSupply := totalSupply + row.amount;
    }
    assert accounts[..|accounts|] == accounts;
    return Ok(totalSupply);
  }

  /* ---------------------------------------------------------------------- */
  /* Transfer, burn and send                                                  */
  /* ---------------------------------------------------------------------- */

  /**
   * What `execute_transfer` does to the ledger: reject a zero amount, take
   * the amount off the sender with a checked subtraction (an absent balance
   * counts as 0), then add it to the recipient (a `Uint128` addition that
   * panics on overflow).
   */
  function Transfer(l: Ledger, sender: Addr, recipient: Addr, amount: Uint128): (r: Result<Ledger>)
    ensures amount == 0 ==> r == Err(InvalidZeroAmount)
    ensures amount > 0 && BalanceOf(l, sender) < amount ==>
      r == Err(Overflow(Sub, BalanceOf(l, sender), amount))
    ensures r.Ok? ==> amount > 0 && BalanceOf(l, sender) >= amount && r.value.info == l.info
    ensures r.Ok? && sender != recipient ==>
      && BalanceOf(r.value, sender) == BalanceOf(l, sender) - amount
      && BalanceOf(r.value, recipient) == BalanceOf(l, recipient) + amount
    ensures r.Ok? && sender == recipient ==> r.value == l
    ensures r.Ok? ==> forall a :: a != sender && a != recipient ==> BalanceOf(r.value, a) == BalanceOf(l, a)
    ensures r.Err? ==> r.error == InvalidZeroAmount || r.error.Overflow? || r.error == Panicked(AddOverflow)
  {
    if amount == 0 then Err(InvalidZeroAmount)
    else
      var from := BalanceOf(l, sender);
      if from < amount then Err(Overflow(Sub, from, amount))
      else
        var debited := l.(balances := l.balances[sender := from - amount]);
        var to := BalanceOf(debited, recipient);
        if to + amount >= TWO_128 then Err(Panicked(AddOverflow))
        else
          var credited := debited.(balances := debited.balances[recipient := to + amount]);
          assert sender == recipient ==> credited.balances == l.balances;
          Ok(credited)
  }

  /** A transfer moves tokens without creating or destroying any. */
  lemma TransferConserves(l: Ledger, sender: Addr, recipient: Addr, amount: Uint128)
    requires Transfer(l, sender, recipient, amount).Ok?
    ensures Total(Transfer(l, sender, recipient, amount).value.balances) == Total(l.balances)
    ensures Consistent(l) ==> Consistent(Transfer(l, sender, recipient, amount).value)
  {
    var from := BalanceOf(l, sender);
    var b1 := l.balances[sender := from - amount];
    TotalUpdate(l.balances, sender, from - amount);
    var to := BalanceOf(Ledger(b1, l.info), recipient);
    TotalUpdate(b1, recipient, to + amount);
  }

  /**
   * In a consistent ledger a transfer fails only for a zero amount or a
   * short balance: the recipient's addition cannot overflow.
   */
  lemma ConsistentTransfer(l: Ledger, sender: Addr, recipient: Addr, amount: Uint128)
    requires Consistent(l)
    ensures Transfer(l, sender, recipient, amount).Ok? <==> amount > 0 && BalanceOf(l, sender) >= amount
  {
    if amount > 0 && BalanceOf(l, sender) >= amount && sender != recipient {
      TotalPair(l, sender, recipient);
    }
  }

  /**
   * What `execute_burn` does to the ledger: reject zero, take the amount off
   * the sender, then off the total supply (both checked subtractions).
   */
  function Burn(l: Ledger, sender: Addr, amount: Uint128): (r: Result<Ledger>)
    ensures amount == 0 ==> r == Err(InvalidZeroAmount)
    ensures amount > 0 && BalanceOf(l, sender) < amount ==>
      r == Err(Overflow(Sub, BalanceOf(l, sender), amount))
    ensures r.Ok? <==> amount > 0 && BalanceOf(l, sender) >= amount && l.info.totalSupply >= amount
    ensures r.Ok? ==>
      && BalanceOf(r.value, sender) == BalanceOf(l, sender) - amount
      && r.value.info == l.info.(totalSupply := l.info.totalSupply - amount)
      && forall a :: a != sender ==> BalanceOf(r.value, a) == BalanceOf(l, a)
  {
    if amount == 0 then Err(InvalidZeroAmount)
    else
      var from := BalanceOf(l, sender);
      if from < amount then Err(Overflow(Sub, from, amount))
      else
        var supply := l.info.totalSupply;
        if supply < amount then Err(Overflow(Sub, supply, amount))
        else Ok(Ledger(l.balances[sender := from - amount], l.info.(totalSupply := supply - amount)))
  }

  /** A burn lowers the balances' sum and the supply by the same amount. */
  lemma BurnConserves(l: Ledger, sender: Addr, amount: Uint128)
    requires Burn(l, sender, amount).Ok?
    ensures Total(Burn(l, sender, amount).value.balances) + amount == Total(l.balances)
    ensures Consistent(l) ==> Consistent(Burn(l, sender, amount).value)
  {
    TotalUpdate(l.balances, sender, BalanceOf(l, sender) - amount);
  }

  /** The storage after a ledger operation: its new ledger if it succeeded. */
  function WithLedger(w: World, r: Result<Ledger>): World {
    w.(ledger := Commit(w.ledger, r))
  }

  /** `execute_transfer`. */
  method ExecuteTransfer(deps: Storage, sender: Addr, recipient: Addr, amount: Uint128)
    returns (r: Result<Response>)
    modifies deps
    ensures r == Transfer(old(deps.Snapshot()).ledger, sender, recipient, amount).Replace(Response([]))
    ensures deps.Snapshot() ==
      WithLedger(old(deps.Snapshot()), Transfer(old(deps.Snapshot()).ledger, sender, recipient, amount))
  {
    if amount == 0 {
      return Err(InvalidZeroAmount);
    }
    var saved := deps.Snapshot();
    var from := if sender in deps.balances then deps.balances[sender] else 0;
    if from < amount {
      return Err(Overflow(Sub, from, amount));
    }
    deps.balances := deps.balances[sender := from - amount];
    var to := if recipient in deps.balances then deps.balances[recipient] else 0;
    if to + amount >= TWO_128 {
      deps.Rollback(saved);
      return Err(Panicked(AddOverflow));
    }
    deps.balances := deps.balances[recipient := to + amount];
    return Ok(Response([]));
  }

  /** `execute_burn`. */
  method ExecuteBurn(deps: Storage, sender: Addr, amount: Uint128) returns (r: Result<Response>)
    modifies deps
    ensures r == Burn(old(deps.Snapshot()).ledger, sender, amount).Replace(Response([]))
    ensures deps.Snapshot() == WithLedger(old(deps.Snapshot()), Burn(old(deps.Snapshot()).ledger, sender, amount))
  {
    if amount == 0 {
      return Err(InvalidZeroAmount);
    }
    var saved := deps.Snapshot();
    var from := if sender in deps.balances then deps.balances[sender] else 0;
    if from < amount {
      return Err(Overflow(Sub, from, amount));
    }
    deps.balances := deps.balances[sender := from - amount];
    if deps.tokenInfo.totalSupply < amount {
      var supply := deps.tokenInfo.totalSupply;
      deps.Rollback(saved);
      return Err(Overflow(Sub, supply, amount));
    }
    deps.tokenInfo := deps.tokenInfo.(totalSupply := deps.tokenInfo.totalSupply - amount);
    return Ok(Response([]));
  }

  /**
   * `execute_send`: the balances move exactly as for a transfer, and the
   * response carries one notification to the recipient contract with the
   * sender, the amount and the payload.
   */
  method ExecuteSend(deps: Storage, sender: Addr, contract: Addr, amount: Uint128, msg: Binary)
    returns (r: Result<Response>)
    modifies deps
    ensures r == Transfer(old(deps.Snapshot()).ledger, sender, contract, amount)
      .Replace(Response([Notification(contract, Cw20ReceiveMsg(sender, amount, msg))]))
    ensures deps.Snapshot() ==
      WithLedger(old(deps.Snapshot()), Transfer(old(deps.Snapshot()).ledger, sender, contract, amount))
  {
    if amount == 0 {
      return Err(InvalidZeroAmount);
    }
    var saved := deps.Snapshot();
    var from := if sender in deps.balances then deps.balances[sender] else 0;
    if from < amount {
      return Err(Overflow(Sub, from, amount));
    }
    deps.balances := deps.balances[sender := from - amount];
    var to := if contract in deps.balances then deps.balances[contract] else 0;
    if to + amount >= TWO_128 {
      deps.Rollback(saved);
      return Err(Panicked(AddOverflow));
    }
    deps.balances := deps.balances[contract := to + amount];
    var notification := Notification(contract, Cw20ReceiveMsg(sender, amount, msg));
    return Ok(Response([notification]));
  }
}
