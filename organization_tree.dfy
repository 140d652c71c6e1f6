/** The Organization objects of ozone/organization.py: a node per organizational unit whose
    `ous` and `accounts` lists hold objects until to_dict replaces them by dicts. */
module OrganizationTree {
  import opened Wrappers
  import opened OrganizationsClient
  import opened Organizations

  /** An element of a node's `ous` list: a child object, or its dict after to_dict. */
  datatype Unit = OrgObj(org: Organization) | OrgDict(dict: Rendered)

  /** An element of a node's `accounts` list: an Account, or its dict after to_dict. */
  datatype Entry = AccountObj(account: Account) | AccountDict(dict: Dict)

  /** `[account.to_dict() for account in entries]` over a list of Account objects. */
  function EntryDicts(entries: seq<Entry>): seq<Dict>
    requires forall k :: 0 <= k < |entries| ==> entries[k].AccountObj?
  {
    AccountDicts(seq(|entries|, k requires 0 <= k < |entries| => entries[k].account))
  }

  class Organization {
    var parent: Option<string>
    var ouid: string
    var name: string
    var arn: string
    var ous: seq<Unit>
    var accounts: seq<Entry>
    /** The tree this node was built as. */
    ghost var model: Node
    ghost var Repr: set<object>

    ghost predicate Valid()
      reads this, Repr
      decreases Repr
      ensures Valid() ==> this in Repr
    {
      this in Repr &&
      parent == model.parent && ouid == model.ouid && name == model.name && arn == model.arn &&
      |accounts| == |model.accounts| &&
      (forall k :: 0 <= k < |accounts| ==>
         accounts[k] == AccountObj(model.accounts[k]) || accounts[k] == AccountDict(model.accounts[k].ToDict())) &&
      |ous| == |model.ous| &&
      (forall k :: 0 <= k < |ous| ==>
         match ous[k]
         case OrgObj(org) =>
           org in Repr && org.Repr <= Repr && this !in org.Repr && org.Valid() && org.model == model.ous[k]
         case OrgDict(dict) => dict == Render(model.ous[k])) &&
      (forall j, k :: 0 <= j < k < |ous| && ous[j].OrgObj? && ous[k].OrgObj? ==>
         ous[j].org.Repr !! ous[k].org.Repr)
    }

    /** Every list below this node still holds objects: to_dict has not run on it. */
    ghost predicate Live()
      requires Valid()
      reads this, Repr
      decreases Repr
    {
      (forall k :: 0 <= k < |accounts| ==> accounts[k].AccountObj?) &&
      (forall k :: 0 <= k < |ous| ==> ous[k].OrgObj? && ous[k].org.Live())
    }

    /** Every list of this node holds dicts: to_dict has run on it. */
    ghost predicate Serialized()
      reads this
    {
      (forall k :: 0 <= k < |accounts| ==> accounts[k].AccountDict?) &&
      (forall k :: 0 <= k < |ous| ==> ous[k].OrgDict?)
    }

    /** A node without units whose accounts are objects is valid and live. */
    lemma LeafIsValid()
      requires Repr == {this} && ous == [] && model.ous == []
      requires parent == model.parent && ouid == model.ouid && name == model.name && arn == model.arn
      requires |accounts| == |model.accounts|
      requires forall k :: 0 <= k < |accounts| ==> accounts[k] == AccountObj(model.accounts[k])
      ensures Valid() && Live()
    {
    }

    /** Lines 44-59 of __init__, once the id, name and ARN are known. */
    constructor Init(parent: Option<string>, ouid: string, name: string, arn: string)
      ensures Valid() && Live() && fresh(Repr) && Repr == {this}
      ensures model == Node(parent, ouid, name, arn, [], [])
    {
      this.parent := parent;
      this.ouid := ouid;
      this.name := name;
      this.arn := arn;
      this.ous := [];
      this.accounts := [];
      this.model := Node(parent, ouid, name, arn, [], []);
      this.Repr := {this};
    }

    /** `Organization(ouid, parent, client)` (lines 37-74): the node and, recursively, one
        child object per listed child unit; an exception from the client or from an account
        abandons the construction. */
    static method New(ouid: Option<string>, parent: Option<string>, client: Client) returns (r: Result<Organization, Error>)
      requires Acyclic(client)
      decreases Height(client, TargetId(ouid, client)), 2
      ensures r.Ok? ==> fresh(r.value.Repr) && r.value.Valid() && r.value.Live()
      ensures r.Ok? ==> Fetch(ouid, parent, client) == Ok(r.value.model)
      ensures r.Err? ==> Fetch(ouid, parent, client) == Err(r.error)
    {
      var id: string;
      if ouid.None? {
        if client.roots == [] {
          return Err(IndexError);
        }
        id := client.roots[0].id;
      } else {
        id := ouid.value;
      }
      var name: string, arn: string;
      if !IsRootId(id) {
        if id !in client.units {
          return Err(ServiceError("DescribeOrganizationalUnit", id));
        }
        name, arn := client.units[id].name, client.units[id].arn;
      } else {
        if client.roots == [] {
          return Err(IndexError);
        }
        name, arn := "Root", client.roots[0].arn;
      }
      var node := new Organization.Init(parent, id, name, arn);
      var failed := node.LoadAccounts(client);
      if failed.Some? {
        return Err(failed.value);
      }
      assert node.ouid == id && node.name == name;
      assert AccountsOf(client.accountsOf[id], id, name) == Ok(node.model.accounts);
      if id !in client.childrenOf {
        return Err(ServiceError("ListChildren", id));
      }
      failed := node.LoadUnits(client);
      if failed.Some? {
        return Err(failed.value);
      }
      r := Ok(node);
    }

    /** Lines 61-66 of __init__: the unit's accounts, one Account per record, in order. */
    method LoadAccounts(client: Client) returns (failed: Option<Error>)
      requires Repr == {this} && ous == [] && accounts == [] && model.ous == [] && model.accounts == []
      requires parent == model.parent && ouid == model.ouid && name == model.name && arn == model.arn
      modifies this
      ensures failed.None? ==> Valid() && Live()
      ensures parent == old(parent) && ouid == old(ouid) && name == old(name) && arn == old(arn)
      ensures Repr == {this} && model == old(model).(accounts := model.accounts)
      ensures failed.None? ==> ouid in client.accountsOf && AccountsOf(client.accountsOf[ouid], ouid, name) == Ok(model.accounts)
      ensures failed.Some? ==> if ouid in client.accountsOf then AccountsOf(client.accountsOf[ouid], ouid, name) == Err(failed.value)
                               else failed.value == ServiceError("ListAccountsForParent", ouid)
    {
      if ouid !in client.accountsOf {
        return Some(ServiceError("ListAccountsForParent", ouid));
      }
      var records := client.accountsOf[ouid];
      assert records[0..] == records;
      PrependNothing(AccountsOf(records, ouid, name));
      for i := 0 to |records|
        invariant Repr == {this} && ous == []
        invariant parent == model.parent && ouid == model.ouid && name == model.name && arn == model.arn
        invariant model == old(model).(accounts := model.accounts)
        invariant |accounts| == |model.accounts|
        invariant forall k :: 0 <= k < |accounts| ==> accounts[k] == AccountObj(model.accounts[k])
        invariant AccountsOf(records, ouid, name) == Prepend(model.accounts, AccountsOf(records[i..], ouid, name))
      {
        AccountsOfStep(records, i, ouid, name);
        var account := NewAccount(records[i], ouid, name);
        if account.Err? {
          return Some(account.error);
        }
        PrependTwice(model.accounts, [account.value], AccountsOf(records[i + 1..], ouid, name));
        accounts := accounts + [AccountObj(account.value)];
        model := model.(accounts := model.accounts + [account.value]);
      }
      assert records[|records|..] == [];
      assert model.accounts + [] == model.accounts;
      LeafIsValid();
      failed := None;
    }

    /** Lines 68-74 of __init__: one child object per listed child unit, in order, each
        built by the constructor with this node's id as its parent. */
    method LoadUnits(client: Client) returns (failed: Option<Error>)
      requires Acyclic(client) && Valid() && Live() && ous == [] && ouid in client.childrenOf
      modifies this
      decreases Height(client, ouid), 1
      ensures failed.None? ==> Valid() && Live()
      ensures parent == old(parent) && ouid == old(ouid) && name == old(name) && arn == old(arn)
      ensures fresh(Repr - old(Repr)) && model == old(model).(ous := model.ous)
      ensures failed.None? ==> FetchAll(ouid, 0, client) == Ok(model.ous)
      ensures failed.Some? ==> FetchAll(ouid, 0, client) == Err(failed.value)
    {
      PrependNothing(FetchAll(ouid, 0, client));
      ghost var added: set<object> := {};
      for i := 0 to |client.childrenOf[ouid]|
        invariant parent == old(parent) && ouid == old(ouid) && name == old(name) && arn == old(arn)
        invariant Valid() && Live()
        invariant Repr == old(Repr) + added && fresh(added) && model == old(model).(ous := model.ous)
        invariant FetchAll(ouid, 0, client) == Prepend(model.ous, FetchAll(ouid, i, client))
      {
        ghost var before := Repr;
        failed := LoadUnit(client, i);
        if failed.Some? {
          return;
        }
        added := added + (Repr - before);
      }
      FetchAllDone(ouid, client, model.ous);
      failed := None;
    }

    /** One pass of the loop at lines 73-74: the child object for the `i`-th listed child
        unit, appended to `ous`. */
    method LoadUnit(client: Client, i: nat) returns (failed: Option<Error>)
      requires Acyclic(client) && Valid() && Live() && ouid in client.childrenOf && i < |client.childrenOf[ouid]|
      requires FetchAll(ouid, 0, client) == Prepend(model.ous, FetchAll(ouid, i, client))
      modifies this
      decreases Height(client, ouid), 0
      ensures parent == old(parent) && ouid == old(ouid) && name == old(name) && arn == old(arn)
      ensures old(Repr) <= Repr && fresh(Repr - old(Repr)) && model == old(model).(ous := model.ous)
      ensures failed.None? ==> Valid() && Live()
      ensures failed.None? ==> FetchAll(ouid, 0, client) == Prepend(model.ous, FetchAll(ouid, i + 1, client))
      ensures failed.Some? ==> FetchAll(ouid, 0, client) == Err(failed.value)
    {
      ChildIsLower(client, ouid, i);
      var child := New(Some(client.childrenOf[ouid][i]), Some(ouid), client);
      if child.Err? {
        FetchAllFails(ouid, i, client, model.ous, child.error);
        return Some(child.error);
      }
      FetchAllAdvance(ouid, i, client, model.ous, child.value.model);
      AppendUnit(child.value);
      failed := None;
    }

    /** `self.ous.append(Organization(...))` (line 74) for a newly built child. */
    method AppendUnit(unit: Organization)
      requires Valid() && Live() && unit.Valid() && unit.Live() && Repr !! unit.Repr
      modifies this
      ensures Valid() && Live()
      ensures parent == old(parent) && ouid == old(ouid) && name == old(name) && arn == old(arn)
      ensures accounts == old(accounts) && ous == old(ous) + [OrgObj(unit)]
      ensures model == old(model).(ous := old(model.ous) + [unit.model]) && Repr == old(Repr) + unit.Repr
    {
      ous := ous + [OrgObj(unit)];
      model := model.(ous := model.ous + [unit.model]);
      Repr := Repr + unit.Repr;
    }
  
    /** The accounts of a live node, rendered, are the renderings of its model's accounts. */
    lemma LiveAccountDicts()
      requires Valid() && Live()
      ensures EntryDicts(accounts) == AccountDicts(model.accounts)
    {
    }

    /** get_all_accounts(accounts, nextou) (lines 80-96) on a tree whose lists still hold
        objects. */
    method GetAllAccounts(accounts: Option<seq<Dict>>, nextou: Option<Organization>) returns (r: seq<Dict>)
      requires Valid() && Live()
      requires nextou.Some? ==> nextou.value.Valid() && nextou.value.Live()
      decreases if nextou.Some? then nextou.value.Repr else Repr, 1
      ensures r == AllAccountsAsWritten(model, accounts, if nextou.Some? then Some(nextou.value.model) else None)
    {
      var acc := if accounts.Some? then accounts.value else [];
      var n := this;
      if nextou.None? {
        LiveAccountDicts();
        acc := EntryDicts(this.accounts);
      } else {
        n := nextou.value;
      }
      r := Walk(acc, n);
    }

    /** Lines 90-96 of get_all_accounts, once `accounts` and `nextou` are set. */
    method Walk(accounts: seq<Dict>, nextou: Organization) returns (r: seq<Dict>)
      requires Valid() && Live() && nextou.Valid() && nextou.Live()
      decreases nextou.Repr, 0
      ensures r == WalkFrom(accounts, nextou.model, 0)
    {
      var acc := accounts;
      for i := 0 to |nextou.ous|
        invariant WalkFrom(acc, nextou.model, i) == WalkFrom(accounts, nextou.model, 0)
      {
        var ounit := nextou.ous[i].org;
        ounit.LiveAccountDicts();
        if ounit.accounts != [] {
          acc := acc + EntryDicts(ounit.accounts);
        } else {
          assert acc + AccountDicts(ounit.model.accounts) == acc;
        }
        if ounit.ous != [] {
          // The loop over `ounit.ous` at lines 94-95 returns during its first pass.
          r := GetAllAccounts(Some(acc), Some(ounit.ous[0].org));
          return;
        }
      }
      r := acc;
    }

    /** to_dict (lines 98-107): every unit below this node and every account is replaced by
        its dict, in order, and the node's own fields are returned. */
    method ToDict() returns (d: Rendered)
      requires Valid() && Live()
      modifies Repr
      decreases Repr, 2
      ensures Valid() && Serialized() && model == old(model) && Repr == old(Repr)
      ensures d == Render(model)
    {
      var renderedOus := RenderUnits();
      var renderedAccounts: seq<Dict> := [];
      for i := 0 to |accounts|
        invariant |renderedAccounts| == i && forall k :: 0 <= k < i ==> renderedAccounts[k] == model.accounts[k].ToDict()
      {
        renderedAccounts := renderedAccounts + [accounts[i].account.ToDict()];
      }
      ous := seq(|renderedOus|, k requires 0 <= k < |renderedOus| => OrgDict(renderedOus[k]));
      accounts := seq(|renderedAccounts|, k requires 0 <= k < |renderedAccounts| => AccountDict(renderedAccounts[k]));
      d := Rendered(parent, ouid, name, arn, renderedOus, renderedAccounts);
    }

    /** Lines 99-102 of to_dict: each unit object rendered by its own to_dict, in order. */
    method RenderUnits() returns (rendered: seq<Rendered>)
      requires Valid() && Live()
      modifies Repr
      decreases Repr, 1
      ensures Valid() && model == old(model) && Repr == old(Repr)
      ensures parent == old(parent) && ouid == old(ouid) && name == old(name) && arn == old(arn)
      ensures ous == old(ous) && accounts == old(accounts)
      ensures |rendered| == |model.ous| && forall k :: 0 <= k < |rendered| ==> rendered[k] == Render(model.ous[k])
    {
      rendered := [];
      for i := 0 to |ous|
        invariant Valid() && model == old(model) && Repr == old(Repr)
        invariant parent == old(parent) && ouid == old(ouid) && name == old(name) && arn == old(arn)
        invariant ous == old(ous) && accounts == old(accounts)
        invariant forall k :: i <= k < |ous| ==> ous[k].org.Live()
        invariant |rendered| == i && forall k :: 0 <= k < i ==> rendered[k] == Render(model.ous[k])
      {
        var unit := RenderUnit(i);
        rendered := rendered + [unit];
      }
    }

    /** Line 102 of to_dict: `self.ous[i].to_dict()`, which changes only that unit's tree. */
    method RenderUnit(i: nat) returns (unit: Rendered)
      requires Valid() && i < |ous| && forall k :: i <= k < |ous| ==> ous[k].OrgObj? && ous[k].org.Live()
      modifies ous[i].org.Repr
      decreases Repr, 0
      ensures Valid() && model == old(model) && Repr == old(Repr)
      ensures parent == old(parent) && ouid == old(ouid) && name == old(name) && arn == old(arn)
      ensures ous == old(ous) && accounts == old(accounts)
      ensures forall k :: i < k < |ous| ==> ous[k].org.Live()
      ensures unit == Render(model.ous[i])
    {
      unit := ous[i].org.ToDict();
    }
  }
}
