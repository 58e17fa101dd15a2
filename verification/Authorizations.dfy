/** EIP-7702 delegation: reading it from account code, signing it for a batch, and what the chain makes of the list. */
module Authorizations {
  import opened Words
  import opened Abi
  import opened Transactions

  const DELEGATION_PREFIX: seq<Byte> := [0xef, 0x01, 0x00]

  // -------------------------------------------------------------------------- account code

  datatype DelegationState = Clear | Expected | Unexpected(delegate: Address) | OtherCode

  function Designator(delegate: Address): (code: seq<Byte>)
    ensures |code| == 23
  {
    DELEGATION_PREFIX + BigEndian(delegate.id, 20)
  }

  predicate IsDesignator(code: seq<Byte>) {
    |code| == 23 && code[..3] == DELEGATION_PREFIX
  }

  function Classify(code: seq<Byte>, expected: Address): DelegationState {
    if code == [] then Clear
    else if IsDesignator(code) then
      var delegate := Address(Number(code[3..]));
      if delegate == expected then Expected else Unexpected(delegate)
    else OtherCode
  }

  /** Code is classified as expected exactly when it is the designator of the expected delegate. */
  lemma ExpectedIsDesignator(code: seq<Byte>, expected: Address)
    requires expected.id < ADDRESS_RANGE
    ensures Classify(code, expected) == Expected <==> code == Designator(expected)
    ensures IsDesignator(Designator(expected))
  {
    ByteRanges();
    ReadWritten(expected.id, 20);
    assert Designator(expected)[..3] == DELEGATION_PREFIX && Designator(expected)[3..] == BigEndian(expected.id, 20);
    if IsDesignator(code) {
      WriteRead(code[3..]);
      assert code == code[..3] + code[3..];
    }
  }

  // -------------------------------------------------------------------------- the chain (EIP-7702, section "Behavior")

  datatype Account = Account(nonce: nat, code: seq<Byte>)

  type State = map<Address, Account>

  /** A tuple of the list; its chain is the current one and its signature recovers `authority`. */
  datatype Authorization = Authorization(authority: Address, delegate: Address, nonce: U64)

  function Get(state: State, account: Address): Account {
    if account in state then state[account] else Account(0, [])
  }

  /** The conditions under which a tuple takes effect; otherwise it is skipped. */
  predicate Applies(state: State, tuple: Authorization) {
    var account := Get(state, tuple.authority);
    tuple.nonce < MAX_U64 && (account.code == [] || IsDesignator(account.code)) && account.nonce == tuple.nonce
  }

  function Process(state: State, tuple: Authorization): State {
    if !Applies(state, tuple) then state
    else state[tuple.authority := Account(tuple.nonce + 1, if tuple.delegate == ZERO_ADDRESS then [] else Designator(tuple.delegate))]
  }

  function ProcessAll(state: State, list: seq<Authorization>): State {
    if list == [] then state else Process(ProcessAll(state, list[..|list| - 1]), list[|list| - 1])
  }

  /** The sender's nonce goes up before the list is processed. */
  function WithSender(state: State, sender: Address): State {
    state[sender := Get(state, sender).(nonce := Get(state, sender).nonce + 1)]
  }

  // -------------------------------------------------------------------------- the lists that are built

  /** A wallet of the run with its state as captured. */
  datatype Wallet = Wallet(address: Address, nonce: U64, code: seq<Byte>)

  ghost predicate Captured(state: State, wallets: seq<Wallet>) {
    forall i: nat :: i < |wallets| ==> Get(state, wallets[i].address) == Account(wallets[i].nonce, wallets[i].code)
  }

  predicate NeedsAuthorization(wallet: Wallet, delegate: Address) {
    var delegation := Classify(wallet.code, delegate);
    delegation.Clear? || delegation.Unexpected?
  }

  predicate NeedsRevocation(wallet: Wallet) {
    var delegation := Classify(wallet.code, ZERO_ADDRESS);
    delegation.Expected? || delegation.Unexpected?
  }

  /** The sender's own authorization names the nonce after the one its transaction uses up. */
  function AuthorizationNonce(wallet: Wallet, sender: Address): nat {
    if wallet.address == sender then wallet.nonce + 1 else wallet.nonce
  }

  /** How a list is built: which wallets get a tuple, with which nonce, for which delegate. */
  datatype Rule = Rule(needs: Wallet -> bool, nonce: Wallet -> nat, delegate: Address)

  /** The tuples, in order, of the wallets that the rule selects; None when a nonce does not fit its word. */
  function Listed(wallets: seq<Wallet>, rule: Rule): Option<seq<Authorization>> {
    if wallets == [] then Some([])
    else
      var last := wallets[|wallets| - 1];
      match Listed(wallets[..|wallets| - 1], rule)
      case None => None
      case Some(earlier) =>
        if !rule.needs(last) then Some(earlier)
        else if rule.nonce(last) > MAX_U64 then None
        else Some(earlier + [Authorization(last.address, rule.delegate, rule.nonce(last))])
  }

  lemma ListedStep(wallets: seq<Wallet>, k: nat, rule: Rule)
    requires k < |wallets|
    ensures var earlier, wallet := Listed(wallets[..k], rule), wallets[k];
            Listed(wallets[..k + 1], rule) ==
            if earlier.None? || !rule.needs(wallet) then earlier
            else if rule.nonce(wallet) > MAX_U64 then None
            else Some(earlier.value + [Authorization(wallet.address, rule.delegate, rule.nonce(wallet))])
  {
    assert wallets[..k + 1][..k] == wallets[..k];
  }

  /** The tuple that the rule gives a wallet takes effect: it names the nonce that the account then has, and not the last one. */
  predicate TakesEffect(wallet: Wallet, rule: Rule, sender: Address) {
    && rule.needs(wallet) && rule.nonce(wallet) == AuthorizationNonce(wallet, sender) < MAX_U64
    && (wallet.code == [] || IsDesignator(wallet.code))
  }

  function CodeOf(delegate: Address): seq<Byte> {
    if delegate == ZERO_ADDRESS then [] else Designator(delegate)
  }

  /** The account of a wallet after the list, when its tuple was in it or not. */
  function AccountAfter(wallet: Wallet, listed: bool, rule: Rule, sender: Address): Account {
    if listed && TakesEffect(wallet, rule, sender) then Account(rule.nonce(wallet) + 1, CodeOf(rule.delegate))
    else Account(AuthorizationNonce(wallet, sender), wallet.code)
  }

  lemma OtherAccountsStay(state: State, tuple: Authorization, account: Address)
    requires account != tuple.authority
    ensures Get(Process(state, tuple), account) == Get(state, account)
  {
  }

  /** A tuple that has taken effect does not take effect again. */
  lemma OneTuple(state: State, wallet: Wallet, listed: bool, rule: Rule, sender: Address)
    requires rule.needs(wallet) && rule.nonce(wallet) <= MAX_U64
    requires Get(state, wallet.address) == AccountAfter(wallet, listed, rule, sender)
    ensures Get(Process(state, Authorization(wallet.address, rule.delegate, rule.nonce(wallet))), wallet.address)
            == AccountAfter(wallet, true, rule, sender)
  {
  }

  /** Captured wallets with one address are one wallet. */
  lemma SameAddressSameWallet(state: State, wallets: seq<Wallet>, i: nat, k: nat)
    requires Captured(state, wallets) && i < |wallets| && k < |wallets| && wallets[i].address == wallets[k].address
    ensures wallets[i] == wallets[k]
  {
  }

  lemma SenderGoesFirst(state: State, wallets: seq<Wallet>, sender: Address, i: nat)
    requires Captured(state, wallets) && i < |wallets|
    ensures Get(WithSender(state, sender), wallets[i].address) == Account(AuthorizationNonce(wallets[i], sender), wallets[i].code)
  {
  }

  lemma OneMoreListed(wallets: seq<Wallet>, k: nat, wallet: Wallet)
    requires k < |wallets|
    ensures wallet in wallets[..k + 1] <==> wallet in wallets[..k] || wallet == wallets[k]
  {
    assert wallets[..k + 1] == wallets[..k] + [wallets[k]];
  }

  lemma OneMoreProcessed(state: State, earlier: seq<Authorization>, tuple: Authorization)
    ensures ProcessAll(state, earlier + [tuple]) == Process(ProcessAll(state, earlier), tuple)
  {
    assert (earlier + [tuple])[..|earlier|] == earlier;
  }

  /** What the tuple of wallet `k` does to the account of wallet `i`. */
  lemma {:induction false} TupleOfWallet(
    state: State, before: State, wallets: seq<Wallet>, k: nat, rule: Rule, sender: Address, i: nat)
    requires Captured(state, wallets) && k < |wallets| && i < |wallets|
    requires rule.needs(wallets[k]) && rule.nonce(wallets[k]) <= MAX_U64
    requires Get(before, wallets[i].address) == AccountAfter(wallets[i], wallets[i] in wallets[..k], rule, sender)
    ensures Get(Process(before, Authorization(wallets[k].address, rule.delegate, rule.nonce(wallets[k]))), wallets[i].address)
            == AccountAfter(wallets[i], wallets[i] in wallets[..k + 1], rule, sender)
  {
    OneMoreListed(wallets, k, wallets[i]);
    if wallets[i].address == wallets[k].address {
      SameAddressSameWallet(state, wallets, i, k);
      OneTuple(before, wallets[k], wallets[k] in wallets[..k], rule, sender);
    } else {
      OtherAccountsStay(before, Authorization(wallets[k].address, rule.delegate, rule.nonce(wallets[k])), wallets[i].address);
    }
  }

  /**
   * Processing the list after the sender's nonce has gone up gives every listed wallet whose tuple takes effect the
   * new code and the next nonce, and leaves all others, in whatever order and however often they are listed.
   */
  lemma {:induction false} ListTakesEffect(state: State, wallets: seq<Wallet>, k: nat, rule: Rule, sender: Address, i: nat)
    requires Captured(state, wallets) && k <= |wallets| && i < |wallets|
    requires Listed(wallets[..k], rule).Some?
    ensures Get(ProcessAll(WithSender(state, sender), Listed(wallets[..k], rule).value), wallets[i].address)
            == AccountAfter(wallets[i], wallets[i] in wallets[..k], rule, sender)
  {
    if k == 0 {
      SenderGoesFirst(state, wallets, sender, i);
    } else {
      var wallet := wallets[k - 1];
      ListedStep(wallets, k - 1, rule);
      ListTakesEffect(state, wallets, k - 1, rule, sender, i);
      if rule.needs(wallet) {
        var earlier := Listed(wallets[..k - 1], rule).value;
        OneMoreProcessed(WithSender(state, sender), earlier, Authorization(wallet.address, rule.delegate, rule.nonce(wallet)));
        TupleOfWallet(state, ProcessAll(WithSender(state, sender), earlier), wallets, k - 1, rule, sender, i);
      } else {
        OneMoreListed(wallets, k - 1, wallets[i]);
      }
    }
  }

  /** The whole list. */
  lemma {:induction false} WholeListTakesEffect(
    state: State, wallets: seq<Wallet>, rule: Rule, sender: Address, list: seq<Authorization>, i: nat)
    requires Captured(state, wallets) && i < |wallets| && Listed(wallets, rule) == Some(list)
    ensures Get(ProcessAll(WithSender(state, sender), list), wallets[i].address) == AccountAfter(wallets[i], true, rule, sender)
  {
    assert wallets[..|wallets|] == wallets;
    ListTakesEffect(state, wallets, |wallets|, rule, sender, i);
  }

  // -------------------------------------------------------------------------- the sponsored batch

  datatype ListError = ArithmeticOverflow | NoEligibleWallets

  predicate Selected(wallet: Wallet, delegate: Address, recipient: Address) {
    wallet.address != recipient && !Classify(wallet.code, delegate).OtherCode?
  }

  function BatchRule(executor: Address, sponsor: Address, recipient: Address): Rule {
    Rule(
      wallet => Selected(wallet, executor, recipient) && NeedsAuthorization(wallet, executor),
      wallet => AuthorizationNonce(wallet, sponsor), executor)
  }

  /** Signs an authorization for every wallet that is not delegated yet, and chooses the wallets of the batch with theirs. */
  method PrepareBatchList(wallets: seq<Wallet>, executor: Address, sponsor: Address, recipient: Address)
    returns (r: Result<(seq<Wallet>, seq<Authorization>), ListError>)
    ensures r.Ok? ==> Listed(wallets, BatchRule(executor, sponsor, recipient)) == Some(r.value.1)
    ensures r.Ok? ==>
              r.value.0 != [] && forall wallet :: wallet in r.value.0 <==> wallet in wallets && Selected(wallet, executor, recipient)
    ensures r == Err(ArithmeticOverflow) <==>
            exists wallet <- wallets :: NeedsAuthorization(wallet, executor) && AuthorizationNonce(wallet, sponsor) > MAX_U64
  {
    ghost var rule := BatchRule(executor, sponsor, recipient);
    var operations: seq<Wallet>, authorizations: seq<Authorization> := [], [];
    for k := 0 to |wallets|
      invariant Listed(wallets[..k], rule) == Some(authorizations)
      invariant forall wallet :: wallet in operations <==> wallet in wallets[..k] && Selected(wallet, executor, recipient)
      invariant forall wallet <- wallets[..k] :: NeedsAuthorization(wallet, executor) ==> AuthorizationNonce(wallet, sponsor) <= MAX_U64
    {
      var wallet := wallets[k];
      ListedStep(wallets, k, rule);
      var nonce := AuthorizationNonce(wallet, sponsor);
      if NeedsAuthorization(wallet, executor) && nonce > MAX_U64 {
        assert wallet in wallets;
        return Err(ArithmeticOverflow);
      }
      if Selected(wallet, executor, recipient) {
        if NeedsAuthorization(wallet, executor) {
          authorizations := authorizations + [Authorization(wallet.address, executor, nonce)];
        }
        operations := operations + [wallet];
      }
    }
    assert wallets[..|wallets|] == wallets;
    if operations == [] {
      return Err(NoEligibleWallets);
    }
    return Ok((operations, authorizations));
  }

  lemma {:induction false} ListedFails(wallets: seq<Wallet>, k: nat, rule: Rule)
    requires k <= |wallets| && Listed(wallets[..k], rule).None?
    ensures Listed(wallets, rule).None?
    decreases |wallets| - k
  {
    if k < |wallets| {
      ListedStep(wallets, k, rule);
      ListedFails(wallets, k + 1, rule);
    } else {
      assert wallets[..k] == wallets;
    }
  }

  /**
   * With the state as captured, every wallet of the batch is delegated to the executor when its operation runs,
   * except exactly one that needed an authorization with the last possible nonce. The sponsor may be one of them.
   */
  lemma {:induction false} EveryOperationIsDelegated(
    state: State, wallets: seq<Wallet>, executor: Address, sponsor: Address, recipient: Address, list: seq<Authorization>, i: nat)
    requires Captured(state, wallets) && executor != ZERO_ADDRESS && executor.id < ADDRESS_RANGE
    requires Listed(wallets, BatchRule(executor, sponsor, recipient)) == Some(list)
    requires i < |wallets| && Selected(wallets[i], executor, recipient)
    ensures Classify(Get(ProcessAll(WithSender(state, sponsor), list), wallets[i].address).code, executor) == Expected <==>
            (NeedsAuthorization(wallets[i], executor) ==> AuthorizationNonce(wallets[i], sponsor) < MAX_U64)
  {
    WholeListTakesEffect(state, wallets, BatchRule(executor, sponsor, recipient), sponsor, list, i);
    ExpectedIsDesignator(Designator(executor), executor);
  }

  // -------------------------------------------------------------------------- revocation

  function RevocationRule(sponsor: Address): Rule {
    Rule(wallet => NeedsRevocation(wallet), wallet => AuthorizationNonce(wallet, sponsor), ZERO_ADDRESS)
  }

  method PrepareRevocations(wallets: seq<Wallet>, sponsor: Address) returns (r: Result<(seq<Wallet>, seq<Authorization>), ListError>)
    ensures r.Ok? ==> Listed(wallets, RevocationRule(sponsor)) == Some(r.value.1)
    ensures r.Ok? ==> forall wallet :: wallet in r.value.0 <==> wallet in wallets && NeedsRevocation(wallet)
    ensures r.Err? <==> Listed(wallets, RevocationRule(sponsor)).None?
  {
    ghost var rule := RevocationRule(sponsor);
    var authorities: seq<Wallet>, revocations: seq<Authorization> := [], [];
    for k := 0 to |wallets|
      invariant Listed(wallets[..k], rule) == Some(revocations)
      invariant forall wallet :: wallet in authorities <==> wallet in wallets[..k] && NeedsRevocation(wallet)
    {
      var wallet := wallets[k];
      ListedStep(wallets, k, rule);
      if NeedsRevocation(wallet) {
        var nonce := AuthorizationNonce(wallet, sponsor);
        if nonce > MAX_U64 {
          ListedFails(wallets, k + 1, rule);
          return Err(ArithmeticOverflow);
        }
        revocations := revocations + [Authorization(wallet.address, ZERO_ADDRESS, nonce)];
        authorities := authorities + [wallet];
      }
    }
    assert wallets[..|wallets|] == wallets;
    return Ok((authorities, revocations));
  }

  /** After the revocation list every wallet is clear, except one with other code, or with the last possible nonce. */
  lemma {:induction false} EveryDelegationIsCleared(
    state: State, wallets: seq<Wallet>, sponsor: Address, list: seq<Authorization>, i: nat)
    requires Captured(state, wallets) && Listed(wallets, RevocationRule(sponsor)) == Some(list) && i < |wallets|
    ensures Classify(Get(ProcessAll(WithSender(state, sponsor), list), wallets[i].address).code, ZERO_ADDRESS) == Clear <==>
            && !Classify(wallets[i].code, ZERO_ADDRESS).OtherCode?
            && (NeedsRevocation(wallets[i]) ==> AuthorizationNonce(wallets[i], sponsor) < MAX_U64)
  {
    WholeListTakesEffect(state, wallets, RevocationRule(sponsor), sponsor, list, i);
  }

  // -------------------------------------------------------------------------- where the wallets come from

  /** A wallet of the manifest: None when its private key is unusable. */
  datatype ManifestEntry = ManifestEntry(address: Option<Address>, quantity: U64)

  /** Accepts exactly a manifest whose entries are usable, mint something, and have different addresses. */
  method LoadManifest(entries: seq<ManifestEntry>) returns (r: Option<seq<Address>>)
    ensures r.Some? <==>
            && entries != [] && (forall entry <- entries :: entry.quantity > 0 && entry.address.Some?)
            && forall i: nat, j: nat :: i < j < |entries| ==> entries[i].address != entries[j].address
    ensures r.Some? ==> |r.value| == |entries| && forall i: nat :: i < |entries| ==> entries[i].address == Some(r.value[i])
  {
    if entries == [] {
      return None;
    }
    var addresses: set<Address>, wallets: seq<Address> := {}, [];
    for k := 0 to |entries|
      invariant |wallets| == k && forall i: nat :: i < k ==> entries[i].address == Some(wallets[i]) && entries[i].quantity > 0
      invariant forall address :: address in addresses <==> address in wallets
      invariant forall i: nat, j: nat :: i < j < k ==> entries[i].address != entries[j].address
    {
      var entry := entries[k];
      if entry.quantity == 0 || entry.address.None? {
        assert entry in entries;
        return None;
      }
      if entry.address.value in addresses {
        ghost var i: nat :| i < k && wallets[i] == entry.address.value;
        assert entries[i].address == entries[k].address;
        return None;
      }
      addresses := addresses + {entry.address.value};
      wallets := wallets + [entry.address.value];
    }
    return Some(wallets);
  }

  // -------------------------------------------------------------------------- the snipe path

  /** The snipe path signs with the wallet's own nonce, for the sponsor too, and also for other code. */
  function SnipeRule(executor: Address): Rule {
    Rule((wallet: Wallet) => Classify(wallet.code, executor) != Expected, (wallet: Wallet) => wallet.nonce, executor)
  }

  method PrepareSnipeList(wallets: seq<Wallet>, executor: Address) returns (authorizations: seq<Authorization>)
    ensures Listed(wallets, SnipeRule(executor)) == Some(authorizations)
  {
    ghost var rule := SnipeRule(executor);
    authorizations := [];
    for k := 0 to |wallets|
      invariant Listed(wallets[..k], rule) == Some(authorizations)
    {
      ListedStep(wallets, k, rule);
      match Classify(wallets[k].code, executor) {
        case Expected =>
        case _ => authorizations := authorizations + [Authorization(wallets[k].address, executor, wallets[k].nonce)];
      }
    }
    assert wallets[..|wallets|] == wallets;
  }

  /**
   * After the snipe path's whole list a wallet is delegated to the executor exactly when it already was, or when it is
   * not the sponsor, has no other code, and has a nonce left. A wallet that is listed twice is no exception.
   */
  lemma {:induction false} SnipeListDelegates(
    state: State, wallets: seq<Wallet>, executor: Address, sponsor: Address, list: seq<Authorization>, i: nat)
    requires Captured(state, wallets) && executor != ZERO_ADDRESS && executor.id < ADDRESS_RANGE
    requires Listed(wallets, SnipeRule(executor)) == Some(list) && i < |wallets|
    ensures Classify(Get(ProcessAll(WithSender(state, sponsor), list), wallets[i].address).code, executor) == Expected <==>
            || Classify(wallets[i].code, executor) == Expected
            || (wallets[i].address != sponsor && !Classify(wallets[i].code, executor).OtherCode? && wallets[i].nonce < MAX_U64)
  {
    WholeListTakesEffect(state, wallets, SnipeRule(executor), sponsor, list, i);
    ExpectedIsDesignator(Designator(executor), executor);
  }

  /** So a sponsor that mints with its own wallet stays undelegated, wherever it stands in the list. */
  lemma {:induction false} SponsorStaysUndelegated(
    state: State, wallets: seq<Wallet>, executor: Address, sponsor: Address, list: seq<Authorization>, i: nat)
    requires Captured(state, wallets) && executor != ZERO_ADDRESS && executor.id < ADDRESS_RANGE
    requires Listed(wallets, SnipeRule(executor)) == Some(list) && i < |wallets|
    requires wallets[i].address == sponsor && Classify(wallets[i].code, executor) != Expected
    ensures Classify(Get(ProcessAll(WithSender(state, sponsor), list), sponsor).code, executor) != Expected
  {
    SnipeListDelegates(state, wallets, executor, sponsor, list, i);
  }
}
