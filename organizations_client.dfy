/** The AWS Organizations client that ozone/organization.py queries, as fixture data: each
    map answers one SDK call for the id it is keyed by; an id missing from a map is the
    service's "not found" error for that call. */
module OrganizationsClient {

  /** A value of an account record: text, a datetime (as an integer instant) as the SDK
      returns JoinedTimestamp, or the ISO-8601 text `isoformat()` renders an instant as. */
  datatype Value = Text(text: string) | Time(instant: int) | IsoTime(instant: int)

  /** An account record of list_accounts_for_parent: field name to value. */
  type Record = map<string, Value>

  /** An entry of list_roots()['Roots']. */
  datatype RootEntry = RootEntry(id: string, arn: string)

  /** describe_organizational_unit(...)['OrganizationalUnit']. */
  datatype UnitDescription = UnitDescription(name: string, arn: string)

  datatype Client = Client(
    roots: seq<RootEntry>,                   // list_roots()['Roots']
    units: map<string, UnitDescription>,     // describe_organizational_unit, by unit id
    accountsOf: map<string, seq<Record>>,    // list_accounts_for_parent, by parent id
    childrenOf: map<string, seq<string>>)    // ids of list_children(ChildType='ORGANIZATIONAL_UNIT')

  /** `rank` strictly decreases from every parent to each of its listed children. */
  ghost predicate RanksUnits(c: Client, rank: map<string, nat>)
  {
    forall p, k :: p in c.childrenOf && 0 <= k < |c.childrenOf[p]| ==>
      p in rank && c.childrenOf[p][k] in rank && rank[c.childrenOf[p][k]] < rank[p]
  }

  /** The children lists form no cycle, as in a real organization. */
  ghost predicate Acyclic(c: Client)
  {
    exists rank :: RanksUnits(c, rank)
  }

  ghost function Ranking(c: Client): (rank: map<string, nat>)
    requires Acyclic(c)
    ensures RanksUnits(c, rank)
  {
    var rank :| RanksUnits(c, rank); rank
  }

  /** A bound on the depth of the tree below `id`. */
  ghost function Height(c: Client, id: string): nat
    requires Acyclic(c)
  {
    if id in Ranking(c) then Ranking(c)[id] else 0
  }

  lemma ChildIsLower(c: Client, p: string, k: nat)
    requires Acyclic(c) && p in c.childrenOf && k < |c.childrenOf[p]|
    ensures Height(c, c.childrenOf[p][k]) < Height(c, p)
  {
    var rank := Ranking(c);
    assert p in rank && c.childrenOf[p][k] in rank;
  }

  /** `id.startswith('r-')`: the id is a root's. */
  predicate IsRootId(id: string)
  {
    |id| >= 2 && id[..2] == "r-"
  }
}
