/** The values ozone/organization.py computes: accounts, the fetched tree of organizational
    units as the Organization constructor builds it, its rendering by to_dict, and the walk
    of get_all_accounts. The objects that hold them are in module OrganizationTree. */
module Organizations {
  import opened Wrappers
  import opened OrganizationsClient

  const JoinedTimestamp: string := "JoinedTimestamp"
  const OrganizationUnitId: string := "OrganizationUnitId"
  const OrganizationUnitName: string := "OrganizationUnitName"

  /** The exceptions the constructor can raise. */
  datatype Error =
    | IndexError                                        // [0] of an empty root list
    | ServiceError(operation: string, id: string)       // the SDK call failed for that id
    | AttributeError(attribute: string)                 // a missing attribute or method

  /** A rendered object: its `__dict__`. */
  type Dict = map<string, Value>

  /** An Account instance; its attributes are its `__dict__`, which to_dict returns. */
  datatype Account = Account(attributes: Dict) {
    function ToDict(): Dict
    {
      attributes
    }
  }

  /** What `Account(record, ouid, ouname)` builds (lines 18-26): every field of the record
      becomes an attribute, JoinedTimestamp is replaced by its ISO-8601 text, and the unit's
      id and name are added, overriding fields of the same names. */
  function AccountOf(record: Record, ouid: string, ouname: string): (r: Result<Account, Error>)
    ensures r.Ok? <==> JoinedTimestamp in record && record[JoinedTimestamp].Time?
    ensures JoinedTimestamp !in record ==> r == Err(AttributeError(JoinedTimestamp))
    ensures JoinedTimestamp in record && !record[JoinedTimestamp].Time? ==> r == Err(AttributeError("isoformat"))
    ensures r.Ok? ==> r.value.attributes.Keys == record.Keys + {OrganizationUnitId, OrganizationUnitName}
    ensures r.Ok? ==> forall key :: key in record && key !in {JoinedTimestamp, OrganizationUnitId, OrganizationUnitName} ==>
                        r.value.attributes[key] == record[key]
    ensures r.Ok? ==> r.value.attributes[JoinedTimestamp] == IsoTime(record[JoinedTimestamp].instant)
    ensures r.Ok? ==> r.value.attributes[OrganizationUnitId] == Text(ouid)
    ensures r.Ok? ==> r.value.attributes[OrganizationUnitName] == Text(ouname)
  {
    if JoinedTimestamp !in record then Err(AttributeError(JoinedTimestamp))
    else match record[JoinedTimestamp]
      case Time(instant) =>
        Ok(Account(record[JoinedTimestamp := IsoTime(instant)][OrganizationUnitId := Text(ouid)][OrganizationUnitName := Text(ouname)]))
      case _ => Err(AttributeError("isoformat"))
  }

  /** Account.__init__ (lines 18-26): the attributes are set one record field at a time. */
  method NewAccount(record: Record, ouid: string, ouname: string) returns (r: Result<Account, Error>)
    ensures r == AccountOf(record, ouid, ouname)
  {
    var attributes: Dict := map[];
    var pending := record.Keys;
    while pending != {}
      invariant pending <= record.Keys
      invariant attributes.Keys == record.Keys - pending
      invariant forall key :: key in attributes ==> attributes[key] == record[key]
      decreases pending
    {
      var key :| key in pending;
      attributes := attributes[key := record[key]];  // setattr(self, key, value)
      pending := pending - {key};
    }
    assert attributes == record;
    if JoinedTimestamp !in attributes {
      return Err(AttributeError(JoinedTimestamp));
    }
    match attributes[JoinedTimestamp]
    case Time(instant) =>
      attributes := attributes[JoinedTimestamp := IsoTime(instant)];
      attributes := attributes[OrganizationUnitId := Text(ouid)];
      attributes := attributes[OrganizationUnitName := Text(ouname)];
      r := Ok(Account(attributes));
    case _ =>
      r := Err(AttributeError("isoformat"));
  }

  /** The accounts of one unit, built in listing order, or the error of the first record
      that fails to build (lines 61-66). */
  function AccountsOf(records: seq<Record>, ouid: string, ouname: string): Result<seq<Account>, Error>
  {
    if records == [] then Ok([])
    else
      var first :- AccountOf(records[0], ouid, ouname);
      var rest :- AccountsOf(records[1..], ouid, ouname);
      Ok([first] + rest)
  }

  /** A unit's accounts are built exactly when every record builds; then there is one per
      record, in order, each carrying the unit's id and name; otherwise the error is that of
      the first record that fails. */
  lemma {:induction false} AccountsOfBuildsEach(records: seq<Record>, ouid: string, ouname: string)
    ensures AccountsOf(records, ouid, ouname).Ok? <==> forall k :: 0 <= k < |records| ==> AccountOf(records[k], ouid, ouname).Ok?
    ensures AccountsOf(records, ouid, ouname).Ok? ==>
              |AccountsOf(records, ouid, ouname).value| == |records| &&
              forall k :: 0 <= k < |records| ==> AccountOf(records[k], ouid, ouname) == Ok(AccountsOf(records, ouid, ouname).value[k])
    ensures AccountsOf(records, ouid, ouname).Err? ==>
              exists k :: 0 <= k < |records| && AccountOf(records[k], ouid, ouname) == Err(AccountsOf(records, ouid, ouname).error) &&
                          forall j :: 0 <= j < k ==> AccountOf(records[j], ouid, ouname).Ok?
  {
    if records != [] {
      AccountsOfBuildsEach(records[1..], ouid, ouname);
      assert forall k :: 1 <= k < |records| ==> records[k] == records[1..][k - 1];
      var r := AccountsOf(records, ouid, ouname);
      if r.Err? && AccountOf(records[0], ouid, ouname).Ok? {
        var k :| 0 <= k < |records[1..]| && AccountOf(records[1..][k], ouid, ouname) == Err(r.error) &&
                 forall j :: 0 <= j < k ==> AccountOf(records[1..][j], ouid, ouname).Ok?;
        assert AccountOf(records[k + 1], ouid, ouname) == Err(r.error);
      }
    }
  }

  /** `r` with `prefix` put in front of its value, if it has one. */
  function Prepend<T>(prefix: seq<T>, r: Result<seq<T>, Error>): Result<seq<T>, Error>
  {
    match r
    case Ok(rest) => Ok(prefix + rest)
    case Err(e) => Err(e)
  }

  lemma PrependNothing<T>(r: Result<seq<T>, Error>)
    ensures Prepend([], r) == r
  {
    match r
    case Ok(rest) => assert [] + rest == rest;
    case Err(_) =>
  }

  lemma PrependTwice<T>(a: seq<T>, b: seq<T>, r: Result<seq<T>, Error>)
    ensures Prepend(a, Prepend(b, r)) == Prepend(a + b, r)
  {
    match r
    case Ok(rest) => assert a + (b + rest) == (a + b) + rest;
    case Err(_) =>
  }

  /** AccountsOf over `records[i..]` in terms of its first record. */
  lemma AccountsOfStep(records: seq<Record>, i: nat, ouid: string, ouname: string)
    requires i < |records|
    ensures AccountsOf(records[i..], ouid, ouname) ==
            match AccountOf(records[i], ouid, ouname)
            case Ok(a) => Prepend([a], AccountsOf(records[i + 1..], ouid, ouname))
            case Err(e) => Err(e)
  {
    assert records[i..][1..] == records[i + 1..];
  }

  /** One Organization node as built, with the attributes in the order __init__ sets them. */
  datatype Node = Node(parent: Option<string>, ouid: string, name: string, arn: string, ous: seq<Node>, accounts: seq<Account>)

  /** The id the node for `ouid` gets: the given one, or the first root's (lines 45-48). */
  function TargetId(ouid: Option<string>, c: Client): string
  {
    if ouid.Some? then ouid.value else if c.roots != [] then c.roots[0].id else ""
  }

  /** The name and ARN of the node with id `id` (lines 50-58). */
  function NameAndArn(id: string, c: Client): Result<(string, string), Error>
  {
    if !IsRootId(id) then
      if id in c.units then Ok((c.units[id].name, c.units[id].arn))
      else Err(ServiceError("DescribeOrganizationalUnit", id))
    else if c.roots == [] then Err(IndexError)
    else Ok(("Root", c.roots[0].arn))
  }

  /** The tree `Organization(ouid, parent, client)` builds (lines 37-74), or the exception
      it raises first. */
  function Fetch(ouid: Option<string>, parent: Option<string>, c: Client): Result<Node, Error>
    requires Acyclic(c)
    decreases Height(c, TargetId(ouid, c)), 1
  {
    var id :- if ouid.Some? then Ok(ouid.value) else if c.roots == [] then Err(IndexError) else Ok(c.roots[0].id);
    var nameArn :- NameAndArn(id, c);
    var accounts :- if id in c.accountsOf then AccountsOf(c.accountsOf[id], id, nameArn.0)
                    else Err(ServiceError("ListAccountsForParent", id));
    var ous :- if id in c.childrenOf then FetchAll(id, 0, c) else Err(ServiceError("ListChildren", id));
    Ok(Node(parent, id, nameArn.0, nameArn.1, ous, accounts))
  }

  /** The children of `parentId` from position `from` on (lines 73-74), each built with
      `Organization(unit['Id'], parentId, client)`, or the first exception. */
  function FetchAll(parentId: string, from: nat, c: Client): Result<seq<Node>, Error>
    requires Acyclic(c) && parentId in c.childrenOf && from <= |c.childrenOf[parentId]|
    decreases Height(c, parentId), 0, |c.childrenOf[parentId]| - from
  {
    if from == |c.childrenOf[parentId]| then Ok([])
    else
      ChildIsLower(c, parentId, from);
      var first :- Fetch(Some(c.childrenOf[parentId][from]), Some(parentId), c);
      var rest :- FetchAll(parentId, from + 1, c);
      Ok([first] + rest)
  }

  /** What a built node holds: its id (the given one, else the first root's), its parent,
      its name and ARN ('Root' and the first root's ARN for a root id, else the unit's
      description), its accounts (built from the records listed for its id, with its id and
      name) and its units (built from the children listed for its id). */
  lemma FetchBuildsNode(ouid: Option<string>, parent: Option<string>, c: Client)
    requires Acyclic(c)
    ensures ouid.None? && c.roots == [] ==> Fetch(ouid, parent, c) == Err(IndexError)
    ensures var r := Fetch(ouid, parent, c);
            r.Ok? ==>
              && (ouid.Some? ==> r.value.ouid == ouid.value)
              && (ouid.None? ==> c.roots != [] && r.value.ouid == c.roots[0].id)
              && r.value.parent == parent
              && (IsRootId(r.value.ouid) ==> c.roots != [] && r.value.name == "Root" && r.value.arn == c.roots[0].arn)
              && (!IsRootId(r.value.ouid) ==>
                    r.value.ouid in c.units && r.value.name == c.units[r.value.ouid].name && r.value.arn == c.units[r.value.ouid].arn)
              && r.value.ouid in c.accountsOf
              && AccountsOf(c.accountsOf[r.value.ouid], r.value.ouid, r.value.name) == Ok(r.value.accounts)
              && r.value.ouid in c.childrenOf
              && FetchAll(r.value.ouid, 0, c) == Ok(r.value.ous)
  {
  }

  /** The constructor fails exactly when one of its steps does: there is no id (no root),
      the name lookup fails (a root id with no root, or a unit with no description), the
      id has no account listing or one of its records does not build, the id has no child
      listing, or one of its listed children fails to build (lines 45-74). */
  lemma FetchFailsIff(ouid: Option<string>, parent: Option<string>, c: Client)
    requires Acyclic(c)
    ensures var id := TargetId(ouid, c);
            Fetch(ouid, parent, c).Err? <==>
              || (ouid.None? && c.roots == [])
              || (IsRootId(id) && c.roots == [])
              || (!IsRootId(id) && id !in c.units)
              || id !in c.accountsOf
              || AccountsOf(c.accountsOf[id], id, NameAndArn(id, c).value.0).Err?
              || id !in c.childrenOf
              || exists k :: 0 <= k < |c.childrenOf[id]| && Fetch(Some(c.childrenOf[id][k]), Some(id), c).Err?
  {
    var id := TargetId(ouid, c);
    if id in c.childrenOf {
      FetchAllFailsIff(id, 0, c);
    }
  }

  /** A list of children fails to build exactly when one of them, from position `from` on,
      fails to build (lines 73-74). */
  lemma {:induction false} FetchAllFailsIff(parentId: string, from: nat, c: Client)
    requires Acyclic(c) && parentId in c.childrenOf && from <= |c.childrenOf[parentId]|
    decreases |c.childrenOf[parentId]| - from
    ensures FetchAll(parentId, from, c).Err? <==>
            exists k :: from <= k < |c.childrenOf[parentId]| && Fetch(Some(c.childrenOf[parentId][k]), Some(parentId), c).Err?
  {
    if from < |c.childrenOf[parentId]| {
      FetchAllFailsIff(parentId, from + 1, c);
    }
  }

  /** A built node has one unit per child listed for its id, in order, each with the
      listed id and the node's id as parent. */
  lemma FetchBuildsUnits(ouid: Option<string>, parent: Option<string>, c: Client)
    requires Acyclic(c)
    ensures var r := Fetch(ouid, parent, c);
            r.Ok? ==>
              && r.value.ouid in c.childrenOf
              && |r.value.ous| == |c.childrenOf[r.value.ouid]|
              && forall k :: 0 <= k < |r.value.ous| ==>
                   r.value.ous[k].ouid == c.childrenOf[r.value.ouid][k] && r.value.ous[k].parent == Some(r.value.ouid)
  {
    FetchBuildsNode(ouid, parent, c);
    if Fetch(ouid, parent, c).Ok? {
      FetchAllBuildsChildren(Fetch(ouid, parent, c).value.ouid, 0, c);
    }
  }

  /** FetchAll builds one node per listed child from `from` on, in order, each with its
      listed id and `parentId` as parent. */
  lemma {:induction false} FetchAllBuildsChildren(parentId: string, from: nat, c: Client)
    requires Acyclic(c) && parentId in c.childrenOf && from <= |c.childrenOf[parentId]|
    decreases |c.childrenOf[parentId]| - from
    ensures var r := FetchAll(parentId, from, c);
            r.Ok? ==>
              && |r.value| == |c.childrenOf[parentId]| - from
              && forall k :: 0 <= k < |r.value| ==>
                   r.value[k].ouid == c.childrenOf[parentId][from + k] && r.value[k].parent == Some(parentId)
  {
    if from < |c.childrenOf[parentId]| {
      FetchBuildsNode(Some(c.childrenOf[parentId][from]), Some(parentId), c);
      FetchAllBuildsChildren(parentId, from + 1, c);
    }
  }

  /** Building the child at position `i` extends the children built so far by one. */
  lemma FetchAllAdvance(parentId: string, i: nat, c: Client, done: seq<Node>, n: Node)
    requires Acyclic(c) && parentId in c.childrenOf && i < |c.childrenOf[parentId]|
    requires FetchAll(parentId, 0, c) == Prepend(done, FetchAll(parentId, i, c))
    requires Fetch(Some(c.childrenOf[parentId][i]), Some(parentId), c) == Ok(n)
    ensures FetchAll(parentId, 0, c) == Prepend(done + [n], FetchAll(parentId, i + 1, c))
  {
    PrependTwice(done, [n], FetchAll(parentId, i + 1, c));
  }

  /** A child whose construction fails makes the whole list fail with its error. */
  lemma FetchAllFails(parentId: string, i: nat, c: Client, done: seq<Node>, e: Error)
    requires Acyclic(c) && parentId in c.childrenOf && i < |c.childrenOf[parentId]|
    requires FetchAll(parentId, 0, c) == Prepend(done, FetchAll(parentId, i, c))
    requires Fetch(Some(c.childrenOf[parentId][i]), Some(parentId), c) == Err(e)
    ensures FetchAll(parentId, 0, c) == Err(e)
  {
  }

  /** Once every child is built, the list is the children built so far. */
  lemma FetchAllDone(parentId: string, c: Client, done: seq<Node>)
    requires Acyclic(c) && parentId in c.childrenOf
    requires FetchAll(parentId, 0, c) == Prepend(done, FetchAll(parentId, |c.childrenOf[parentId]|, c))
    ensures FetchAll(parentId, 0, c) == Ok(done)
  {
    assert done + [] == done;
  }

  /** What to_dict makes of a node: its `__dict__` once `ous` and `accounts` hold dicts. */
  datatype Rendered = Rendered(parent: Option<string>, ouid: string, name: string, arn: string, ous: seq<Rendered>, accounts: seq<Dict>)

  /** `[account.to_dict() for account in accounts]` */
  function AccountDicts(accounts: seq<Account>): seq<Dict>
  {
    seq(|accounts|, k requires 0 <= k < |accounts| => accounts[k].ToDict())
  }

  /** Organization.to_dict on a node (lines 98-107): the units and accounts are replaced by
      their own renderings, in order. */
  function Render(n: Node): Rendered
  {
    Rendered(n.parent, n.ouid, n.name, n.arn,
             seq(|n.ous|, k requires 0 <= k < |n.ous| => Render(n.ous[k])),
             AccountDicts(n.accounts))
  }

  /** Reads a rendering back as a node. */
  function Unrender(d: Rendered): Node
  {
    Node(d.parent, d.ouid, d.name, d.arn,
         seq(|d.ous|, k requires 0 <= k < |d.ous| => Unrender(d.ous[k])),
         seq(|d.accounts|, k requires 0 <= k < |d.accounts| => Account(d.accounts[k])))
  }

  /** to_dict loses nothing: every unit and account, in order, with every field. */
  lemma {:induction false} RenderRoundTrip(n: Node)
    ensures Unrender(Render(n)) == n
  {
    var d := Render(n);
    forall k | 0 <= k < |n.ous|
      ensures Unrender(d.ous[k]) == n.ous[k]
    {
      RenderRoundTrip(n.ous[k]);
    }
    assert seq(|d.accounts|, k requires 0 <= k < |d.accounts| => Account(d.accounts[k])) == n.accounts;
  }

  /** get_all_accounts(accounts, nextou) once `nextou` is known (lines 90-96), from the
      unit at position `i` of `nextou.ous` on: each unit's accounts are appended; at the first
      unit that has sub-units the walk returns what the call on that unit's FIRST sub-unit
      returns, so the sub-unit's own accounts and all later units are never visited. */
  function WalkFrom(accounts: seq<Dict>, nextou: Node, i: nat): seq<Dict>
    requires i <= |nextou.ous|
    decreases nextou, |nextou.ous| - i
  {
    if i == |nextou.ous| then accounts
    else
      var ounit := nextou.ous[i];
      var accounts' := accounts + AccountDicts(ounit.accounts);
      if ounit.ous != [] then WalkFrom(accounts', ounit.ous[0], 0)
      else WalkFrom(accounts', nextou, i + 1)
  }

  /** get_all_accounts(accounts, nextou) on the node `self` (lines 80-96). */
  function AllAccountsAsWritten(self: Node, accounts: Option<seq<Dict>>, nextou: Option<Node>): seq<Dict>
  {
    match nextou
    case None => WalkFrom(AccountDicts(self.accounts), self, 0)
    case Some(n) => WalkFrom(if accounts.Some? then accounts.value else [], n, 0)
  }
}
