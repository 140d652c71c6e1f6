/** What get_all_accounts of ozone/organization.py returns, compared with the accounts a
    tree actually holds. */
module OrganizationWalk {
  import opened Wrappers
  import opened OrganizationsClient
  import opened Organizations

  /** The rendered accounts of a node and of every unit below it, in pre-order: the node's
      own accounts first, then each unit's, in the order the units are listed. */
  function AllAccounts(n: Node): seq<Dict>
    decreases n, 1
  {
    AccountDicts(n.accounts) + UnitsAccounts(n.ous)
  }

  /** AllAccounts of each unit of a list, concatenated in order. */
  function UnitsAccounts(units: seq<Node>): seq<Dict>
    decreases units, 0
  {
    if units == [] then [] else AllAccounts(units[0]) + UnitsAccounts(units[1..])
  }

  /** `m` is `n` or a unit somewhere below it. */
  predicate InTree(m: Node, n: Node)
    decreases n
  {
    m == n || exists k :: 0 <= k < |n.ous| && InTree(m, n.ous[k])
  }

  /** A dict is in UnitsAccounts of a list exactly when it is in AllAccounts of one of its
      units. */
  lemma {:induction false} InUnitsAccounts(units: seq<Node>, d: Dict)
    decreases units
    ensures d in UnitsAccounts(units) <==> exists k :: 0 <= k < |units| && d in AllAccounts(units[k])
  {
    if units != [] {
      InUnitsAccounts(units[1..], d);
      if d in UnitsAccounts(units[1..]) {
        var k :| 0 <= k < |units[1..]| && d in AllAccounts(units[1..][k]);
        assert units[1..][k] == units[k + 1];
      }
      if exists k :: 0 <= k < |units| && d in AllAccounts(units[k]) {
        var k :| 0 <= k < |units| && d in AllAccounts(units[k]);
        if k > 0 {
          assert units[1..][k - 1] == units[k];
        }
      }
    }
  }

  /** AllAccounts holds an account exactly when some node of the tree holds it: the
      enumeration the corrected get_all_accounts returns is complete and sound. */
  lemma {:induction false} AllAccountsExact(n: Node, d: Dict)
    decreases n
    ensures d in AllAccounts(n) <==> exists m :: InTree(m, n) && d in AccountDicts(m.accounts)
  {
    InUnitsAccounts(n.ous, d);
    if d in AllAccounts(n) && d !in AccountDicts(n.accounts) {
      var k :| 0 <= k < |n.ous| && d in AllAccounts(n.ous[k]);
      AllAccountsExact(n.ous[k], d);
      var m :| InTree(m, n.ous[k]) && d in AccountDicts(m.accounts);
      assert InTree(m, n);
    }
    if exists m :: InTree(m, n) && d in AccountDicts(m.accounts) {
      var m :| InTree(m, n) && d in AccountDicts(m.accounts);
      if m != n {
        var k :| 0 <= k < |n.ous| && InTree(m, n.ous[k]);
        AllAccountsExact(n.ous[k], d);
      }
    }
  }

  /** The corrected get_all_accounts() on a root: every account of the tree, in pre-order. */
  function AllAccountsFixed(self: Node): (r: seq<Dict>)
    ensures forall d :: d in r <==> exists m :: InTree(m, self) && d in AccountDicts(m.accounts)
  {
    var r := AllAccounts(self);
    forall d ensures d in r <==> exists m :: InTree(m, self) && d in AccountDicts(m.accounts) {
      AllAccountsExact(self, d);
    }
    r
  }

  /** The walk only ever appends to the list it is given. */
  lemma {:induction false} WalkAppends(accounts: seq<Dict>, nextou: Node, i: nat)
    requires i <= |nextou.ous|
    decreases nextou, |nextou.ous| - i
    ensures WalkFrom(accounts, nextou, i) == accounts + WalkFrom([], nextou, i)
  {
    if i == |nextou.ous| {
      assert accounts + [] == accounts;
    } else {
      var ounit := nextou.ous[i];
      var own := AccountDicts(ounit.accounts);
      assert [] + own == own;
      if ounit.ous != [] {
        WalkAppends(accounts + own, ounit.ous[0], 0);
        WalkAppends(own, ounit.ous[0], 0);
      } else {
        WalkAppends(accounts + own, nextou, i + 1);
        WalkAppends(own, nextou, i + 1);
      }
      assert (accounts + own) + WalkFrom([], nextou, i + 1) == accounts + (own + WalkFrom([], nextou, i + 1));
      assert ounit.ous != [] ==>
        (accounts + own) + WalkFrom([], ounit.ous[0], 0) == accounts + (own + WalkFrom([], ounit.ous[0], 0));
    }
  }

  /** get_all_accounts() with no `nextou` starts with the node's own accounts, in order;
      an `accounts` list passed in is discarded (line 88). */
  lemma AsWrittenStartsWithOwnAccounts(self: Node, accounts: Option<seq<Dict>>)
    ensures AllAccountsAsWritten(self, accounts, None) == AccountDicts(self.accounts) + WalkFrom([], self, 0)
  {
    WalkAppends(AccountDicts(self.accounts), self, 0);
  }

  /** The node the walk is on contributes none of its own accounts: when get_all_accounts
      descends into a sub-unit, that sub-unit's accounts are never collected. */
  lemma {:induction false} WalkSkipsOwnAccounts(accounts: seq<Dict>, nextou: Node, i: nat, other: seq<Account>)
    requires i <= |nextou.ous|
    decreases |nextou.ous| - i
    ensures WalkFrom(accounts, nextou, i) == WalkFrom(accounts, nextou.(accounts := other), i)
  {
    if i < |nextou.ous| && nextou.ous[i].ous == [] {
      WalkSkipsOwnAccounts(accounts + AccountDicts(nextou.ous[i].accounts), nextou, i + 1, other);
    }
  }

  /** From position `i`, the walk collects the accounts of the units without sub-units in
      order, and at the first unit `j` that has sub-units adds that unit's accounts and
      continues only in its first sub-unit: the units after `j` are never visited. */
  lemma {:induction false} WalkDescends(accounts: seq<Dict>, nextou: Node, i: nat, j: nat)
    requires i <= j < |nextou.ous|
    requires forall k :: i <= k < j ==> nextou.ous[k].ous == []
    requires nextou.ous[j].ous != []
    decreases j - i
    ensures WalkFrom(accounts, nextou, i) ==
            WalkFrom(accounts + UnitsAccounts(nextou.ous[i..j]) + AccountDicts(nextou.ous[j].accounts), nextou.ous[j].ous[0], 0)
  {
    if i == j {
      assert nextou.ous[i..j] == [];
      assert accounts + [] == accounts;
    } else {
      var ounit := nextou.ous[i];
      LeafAccounts(ounit);
      WalkDescends(accounts + AccountDicts(ounit.accounts), nextou, i + 1, j);
      assert nextou.ous[i..j][1..] == nextou.ous[i + 1..j];
      assert accounts + AccountDicts(ounit.accounts) + UnitsAccounts(nextou.ous[i + 1..j]) ==
             accounts + UnitsAccounts(nextou.ous[i..j]);
    }
  }

  /** A unit without sub-units holds exactly its own accounts. */
  lemma LeafAccounts(n: Node)
    requires n.ous == []
    ensures AllAccounts(n) == AccountDicts(n.accounts)
  {
    assert AccountDicts(n.accounts) + [] == AccountDicts(n.accounts);
  }

  /** When no unit from position `i` on has sub-units, the walk collects all their accounts,
      in order. */
  lemma {:induction false} WalkFlat(accounts: seq<Dict>, nextou: Node, i: nat)
    requires i <= |nextou.ous|
    requires forall k :: i <= k < |nextou.ous| ==> nextou.ous[k].ous == []
    decreases |nextou.ous| - i
    ensures WalkFrom(accounts, nextou, i) == accounts + UnitsAccounts(nextou.ous[i..])
  {
    if i == |nextou.ous| {
      assert nextou.ous[i..] == [];
      assert accounts + [] == accounts;
    } else {
      var ounit := nextou.ous[i];
      LeafAccounts(ounit);
      WalkFlat(accounts + AccountDicts(ounit.accounts), nextou, i + 1);
      assert nextou.ous[i..][1..] == nextou.ous[i + 1..];
      assert accounts + AccountDicts(ounit.accounts) + UnitsAccounts(nextou.ous[i + 1..]) ==
             accounts + UnitsAccounts(nextou.ous[i..]);
    }
  }

  /** On a tree no deeper than two levels (no unit has sub-units), get_all_accounts() as
      written does return every account, in pre-order. */
  lemma AsWrittenOnShallowTree(self: Node)
    requires forall k :: 0 <= k < |self.ous| ==> self.ous[k].ous == []
    ensures AllAccountsAsWritten(self, None, None) == AllAccounts(self)
  {
    WalkFlat(AccountDicts(self.accounts), self, 0);
    assert self.ous[0..] == self.ous;
  }

  /** Whatever the walk adds to the given list is an account of some unit from position `i`
      on: get_all_accounts as written may miss accounts but never invents one. */
  lemma {:induction false} WalkSound(accounts: seq<Dict>, nextou: Node, i: nat, d: Dict)
    requires i <= |nextou.ous|
    decreases nextou, |nextou.ous| - i
    ensures d in WalkFrom(accounts, nextou, i) ==> d in accounts || d in UnitsAccounts(nextou.ous[i..])
  {
    if i < |nextou.ous| {
      var ounit := nextou.ous[i];
      var accounts' := accounts + AccountDicts(ounit.accounts);
      assert nextou.ous[i..][1..] == nextou.ous[i + 1..];
      if ounit.ous != [] {
        var sub := ounit.ous[0];
        WalkSound(accounts', sub, 0, d);
        assert sub.ous[0..] == sub.ous;
        assert AllAccounts(sub) == AccountDicts(sub.accounts) + UnitsAccounts(sub.ous);
        assert UnitsAccounts(ounit.ous) == AllAccounts(sub) + UnitsAccounts(ounit.ous[1..]);
        assert AllAccounts(ounit) == AccountDicts(ounit.accounts) + UnitsAccounts(ounit.ous);
        assert UnitsAccounts(nextou.ous[i..]) == AllAccounts(ounit) + UnitsAccounts(nextou.ous[i + 1..]);
      } else {
        WalkSound(accounts', nextou, i + 1, d);
      }
    }
  }

  /** get_all_accounts() as written returns only accounts of the tree. */
  lemma AsWrittenSound(self: Node, d: Dict)
    ensures d in AllAccountsAsWritten(self, None, None) ==> d in AllAccounts(self)
  {
    WalkSound(AccountDicts(self.accounts), self, 0, d);
    assert self.ous[0..] == self.ous;
  }

  /** A root holding account a1 with one unit A holding a2, and below A one unit B holding
      a3. */
  function ThreeLevelTree(): Node
  {
    var b := Node(Some("ou-a"), "ou-b", "B", "arn-b", [], [Account(map["Id" := Text("a3")])]);
    var a := Node(Some("r-root"), "ou-a", "A", "arn-a", [b], [Account(map["Id" := Text("a2")])]);
    Node(None, "r-root", "Root", "arn-root", [a], [Account(map["Id" := Text("a1")])])
  }

  /** On the three-level tree get_all_accounts() as written returns a1 and a2 only: it moves
      into B and never collects B's own account a3, which the corrected enumeration holds. */
  lemma AsWrittenMissesDeepAccount()
    ensures AllAccountsAsWritten(ThreeLevelTree(), None, None) ==
            [map["Id" := Text("a1")], map["Id" := Text("a2")]]
    ensures AllAccountsFixed(ThreeLevelTree()) ==
            [map["Id" := Text("a1")], map["Id" := Text("a2")], map["Id" := Text("a3")]]
  {
    var t := ThreeLevelTree();
    var a := t.ous[0];
    var b := a.ous[0];
    assert AccountDicts(t.accounts) == [map["Id" := Text("a1")]];
    assert AccountDicts(a.accounts) == [map["Id" := Text("a2")]];
    assert AccountDicts(b.accounts) == [map["Id" := Text("a3")]];
    LeafAccounts(b);
    assert UnitsAccounts(a.ous) == AllAccounts(b) + UnitsAccounts([]);
    assert UnitsAccounts(t.ous) == AllAccounts(a) + UnitsAccounts([]);
  }
}
