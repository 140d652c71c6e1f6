# ozone: organization tree, artifact location and image selection in Dafny

This project models three pieces of in-memory logic of the ozone repository, with the AWS
calls replaced by data:

- **The AWS Organizations tree** (`ozone/organization.py`).
  - `Account` copies an account record and stamps on the owning unit's id and name.
  - `Organization(ouid, parent, client)` builds, recursively, one node per organizational
    unit, holding its accounts and its child units.
  - `get_all_accounts` walks the tree into an accumulator list.
  - `to_dict` replaces the objects in the tree by their dicts, in place.
- **The artifact-location split** of `get_artifact_location` (`layer_build.py`): the S3 ARN
  of a CodeBuild artifact is stripped and split into a bucket and a key.
- **The newest-image selection** in the `lambda_handler` of
  `ozone/templates/examples/list_amis.py`: a minimum scan over the images `describe_images`
  returned.

Modules:

- `OrganizationsClient` (`organizations_client.dfy`) is the client as fixture data. It has
  one field per SDK call: the root list, the unit descriptions, the account records per
  parent and the child ids per parent.
  - An id missing from a map is that call's service error.
  - The child lists must be acyclic (`Acyclic`, a ranking that decreases from parent to
    child). This is what makes the recursive build terminate.
- `Organizations` (`organizations.dfy`) holds the values:
  - `Account`, and `AccountOf`, the account a record builds;
  - `Fetch`, the abstract tree (`Node`) the constructor builds, or the first exception it raises;
  - `Render`, what `to_dict` returns;
  - `WalkFrom`, what `get_all_accounts` returns, exactly as written.
- `OrganizationTree` (`organization_tree.dfy`) is the imperative `Organization` class.
  - Its fields are those of the Python object. `ous` and `accounts` hold objects until
    `to_dict` replaces them by dicts, which the sum types `Unit` and `Entry` express.
  - A ghost `model` records the `Node` the object was built as. `Valid()` ties the fields
    to it, and `Live()` says `to_dict` has not run yet.
  - `New` is the constructor. It is proved to build `Fetch(ouid, parent, client)` or to fail
    with its error. `GetAllAccounts` is proved to return `WalkFrom`. `ToDict` is proved to
    return `Render` of the model and to leave every list rendered.
- `OrganizationWalk` (`organization_walk.dfy`) relates `get_all_accounts` as written to the
  complete pre-order enumeration `AllAccounts`.
- `LayerBuild` (`layer_build.dfy`) holds `strip`, `split` and `split(sep, 1)` on strings,
  the artifact-location function, and the same function with the prefix removed.
- `ListAmis` (`list_amis.dfy`) holds the selection loop, with the `pop()`, and the same loop
  over the whole list.
- `Wrappers` (`wrappers.dfy`) holds `Option` and `Result`.

Where the code and its documentation disagree, the model follows the code:

- The docstring of `get_all_accounts` (line 82) says it returns all accounts. The code
  does not, when a unit has sub-units (see Findings).
- The built tree is not fixed after construction: `to_dict` rewrites `ous` and `accounts`
  of every node in place, and the model has this state change.
- No operation resolves a slash-delimited path of unit names; the code has none.

## Model

| member | source | states |
|---|---|---|
| `Organizations.AccountOf` | ozone/organization.py:18-26 | the account builds exactly when the record has a datetime JoinedTimestamp; otherwise AttributeError. On success its keys are the record's plus the two unit keys, and every other field is kept unchanged. JoinedTimestamp becomes its ISO text. OrganizationUnitId and OrganizationUnitName are the given id and name, overriding record fields of those names |
| `Organizations.NewAccount` | ozone/organization.py:18-26 | the field-by-field `setattr` loop and the two stamps build exactly `AccountOf` |
| `Organizations.AccountsOfBuildsEach` | ozone/organization.py:61-66 | a unit's accounts build exactly when every record builds. Then there is one account per record, in listing order. Otherwise the error is that of the first failing record |
| `Organizations.AccountsOfStep` | ozone/organization.py:65-66 | building the accounts from position i is building record i and then the rest |
| `Organizations.FetchBuildsNode` | ozone/organization.py:37-74 | a built node has the given id, or the first root's id when none is given (IndexError with no root), and the given parent. For an id starting with "r-" a root exists, the name is 'Root' and the ARN is the first root's; for any other id the unit has a description, and the name and ARN are its. Its accounts are those built from its id's records with its id and name. Its units are those built from its id's children |
| `Organizations.FetchFailsIff` | ozone/organization.py:45-74 | the constructor fails exactly when a step fails: no root when no id is given, a unit id with no description (lines 51-53), a root id with no root (line 58), no account listing or a record that does not build, no child listing, or a listed child that fails to build |
| `Organizations.FetchAllFailsIff` | ozone/organization.py:73-74 | the children from position `from` on fail to build exactly when one of them fails to build, so any child's exception is passed on |
| `Organizations.FetchBuildsUnits` | ozone/organization.py:68-74 | a built node has exactly one unit per listed child id, in listing order. Each unit has that id as its id and the node's id as its parent |
| `Organizations.FetchAllBuildsChildren` | ozone/organization.py:73-74 | the children built from position `from` on are one per listed id, in order, each with the parent id given |
| `Organizations.FetchAllAdvance` | ozone/organization.py:73-74 | a successfully built child extends the list of children built so far by one |
| `Organizations.FetchAllFails` | ozone/organization.py:73-74 | a child that fails to build makes the constructor fail with that child's error |
| `Organizations.FetchAllDone` | ozone/organization.py:73-74 | once every child is built, the units are the children built so far |
| `Organizations.RenderRoundTrip` | ozone/organization.py:98-107 | the rendering of to_dict loses nothing: every unit and account, in order, with all fields, can be read back |
| `OrganizationsClient.ChildIsLower` | ozone/organization.py:68-74 | in an acyclic fixture every listed child ranks strictly below its parent, so the recursion at line 74 terminates |
| `OrganizationTree.Organization.Init` | ozone/organization.py:44-59 | a fresh node with the given parent, id, name and ARN and empty lists is valid and live |
| `OrganizationTree.Organization.LeafIsValid` | ozone/organization.py:59-66 | a node without units whose accounts are the objects of its model is valid and live |
| `OrganizationTree.Organization.New` | ozone/organization.py:37-74 | the constructor either returns a fresh, valid, live object tree whose model is `Fetch(ouid, parent, client)`, or fails with exactly the error `Fetch` gives |
| `OrganizationTree.Organization.LoadAccounts` | ozone/organization.py:61-66 | appends one Account object per listed record, in order, and gives the accounts `AccountsOf` builds. Otherwise it gives AccountsOf's error, or the service error when the id has no listing. Id, name, ARN and parent are unchanged |
| `OrganizationTree.Organization.LoadUnits` | ozone/organization.py:68-74 | appends one child object per listed child id, in order, each built by the constructor with this node's id as parent. The units are then `FetchAll(ouid, 0, client)`, or it fails with that function's error |
| `OrganizationTree.Organization.LoadUnit` | ozone/organization.py:73-74 | one pass of the loop builds the i-th listed child and extends the units built so far by it. Otherwise it fails with the error the whole list fails with |
| `OrganizationTree.Organization.AppendUnit` | ozone/organization.py:74 | appending a valid, live, newly built child keeps the node valid and live and adds the child's model to the node's model |
| `OrganizationTree.Organization.LiveAccountDicts` | ozone/organization.py:88 | `[account.to_dict() for account in self.accounts]` on a live node gives the renderings of the model's accounts |
| `OrganizationTree.Organization.GetAllAccounts` | ozone/organization.py:80-96 | get_all_accounts on a live tree returns exactly `AllAccountsAsWritten` of the models |
| `OrganizationTree.Organization.Walk` | ozone/organization.py:90-96 | the loop with its early return gives exactly `WalkFrom(accounts, nextou, 0)` |
| `OrganizationTree.Organization.ToDict` | ozone/organization.py:98-107 | returns `Render` of the model. Afterwards every list of the node holds dicts, the node stays valid, and neither its model nor its footprint changes |
| `OrganizationTree.Organization.RenderUnits` | ozone/organization.py:99-102 | the units' to_dict results are the renderings of their models, in order. The node's own fields are unchanged |
| `OrganizationTree.Organization.RenderUnit` | ozone/organization.py:102 | `to_dict` of the i-th unit gives its model's rendering. It leaves the node valid and the later units live |
| `OrganizationWalk.InUnitsAccounts` | ozone/organization.py:80-83 | a dict is in the accounts of a list of units exactly when it is in the accounts of one of them |
| `OrganizationWalk.AllAccountsExact` | ozone/organization.py:80-83 | the pre-order enumeration holds an account exactly when some node of the tree holds it |
| `OrganizationWalk.AllAccountsFixed` | ozone/organization.py:80-83 | the corrected get_all_accounts returns every account of the tree's nodes and no other |
| `OrganizationWalk.WalkAppends` | ozone/organization.py:90-96 | the walk only appends to the list it is given |
| `OrganizationWalk.AsWrittenStartsWithOwnAccounts` | ozone/organization.py:84-88 | get_all_accounts() on a node starts with that node's own accounts in order. A list passed without `nextou` is discarded |
| `OrganizationWalk.WalkSkipsOwnAccounts` | ozone/organization.py:90-96 | the node the walk runs on contributes none of its own accounts. So the sub-unit it descends into never has its own accounts collected |
| `OrganizationWalk.WalkDescends` | ozone/organization.py:90-95 | the walk collects the accounts of the leading units without sub-units. At the first unit with sub-units it adds that unit's accounts and continues only in its first sub-unit. Later siblings are never visited |
| `OrganizationWalk.LeafAccounts` | ozone/organization.py:91-93 | a unit without sub-units holds exactly its own accounts |
| `OrganizationWalk.WalkFlat` | ozone/organization.py:90-92 | when no unit from position i on has sub-units, the walk appends all their accounts, in order |
| `OrganizationWalk.AsWrittenOnShallowTree` | ozone/organization.py:84-92 | when no direct child has sub-units, get_all_accounts() returns the root's accounts followed by each child's, in order: all accounts |
| `OrganizationWalk.WalkSound` | ozone/organization.py:90-96 | everything the walk adds is an account of a unit from position i on or below it |
| `OrganizationWalk.AsWrittenSound` | ozone/organization.py:80-96 | get_all_accounts() returns only accounts of the tree |
| `OrganizationWalk.AsWrittenMissesDeepAccount` | ozone/organization.py:93-95 | on a root → A → B tree with one account each, get_all_accounts() returns the root's and A's accounts only. The corrected enumeration returns all three |
| `LayerBuild.StripLeading` | layer_build.py:21 | removes exactly the leading characters that belong to the set; the remainder does not start with one |
| `LayerBuild.StripTrailing` | layer_build.py:21 | removes exactly the trailing characters that belong to the set; the remainder does not end with one |
| `LayerBuild.Strip` | layer_build.py:21 | the stripped location neither begins nor ends with a character of 'aws:arn:s3:::' |
| `LayerBuild.StripKeepsMiddle` | layer_build.py:21 | strip keeps a contiguous middle part and every character it removes on either side is in the set |
| `LayerBuild.IndexOf` | layer_build.py:22-23 | the first position of the separator, or none when it does not occur |
| `LayerBuild.Split` | layer_build.py:22 | `split('/')` gives at least one piece, the pieces contain no '/', and joining them with '/' gives the string back |
| `LayerBuild.SplitOnce` | layer_build.py:23 | `split('/', 1)` gives two pieces around the first '/' when there is one, otherwise the whole string |
| `LayerBuild.SplitBucketKey` | layer_build.py:22-23 | the bucket has no '/'. With a '/', bucket + "/" + key is the path. Without one, bucket and key are both the whole path |
| `LayerBuild.ArtifactLocation` | layer_build.py:21-24 | the same three facts about the bucket and key of the stripped location |
| `LayerBuild.SplitsAtFirstSlash` | layer_build.py:22-23 | only the first '/' splits: the key keeps every later '/' |
| `LayerBuild.StripLeadingPrefix` | layer_build.py:21 | a prefix of stripped characters before a kept one is removed exactly |
| `LayerBuild.StripTrailingSuffix` | layer_build.py:21 | a suffix of stripped characters after a kept one is removed exactly |
| `LayerBuild.StripBoth` | layer_build.py:21 | strip of p + s + q is s when p and q consist of stripped characters and s starts and ends with kept ones |
| `LayerBuild.StripsTo` | layer_build.py:21-23 | what lines 22-23 receive once the strip has removed such p and q |
| `LayerBuild.SplitJoined` | layer_build.py:22-23 | a bucket without '/' joined to any key splits back into the two |
| `LayerBuild.SplitExample1` | layer_build.py:22-23 | "mybucket/path/layer.zip" splits into ("mybucket", "path/layer.zip") |
| `LayerBuild.SplitExample2` | layer_build.py:22-23 | "pshots/layer.zip" splits into ("pshots", "layer.zip") |
| `LayerBuild.SplitExample3` | layer_build.py:22-23 | "mybucket/asset" splits into ("mybucket", "asset") |
| `LayerBuild.ArtifactLocationExample` | layer_build.py:21-24 | "arn:aws:s3:::mybucket/path/layer.zip" gives ("mybucket", "path/layer.zip") |
| `LayerBuild.StripEatsBucket` | layer_build.py:21 | "arn:aws:s3:::snapshots/layer.zip" gives the bucket "pshots": the strip eats the leading "sna" of the bucket |
| `LayerBuild.StripEatsKey` | layer_build.py:21 | "arn:aws:s3:::mybucket/assets" gives the key "asset": the strip eats the trailing "s" of the key |
| `LayerBuild.RemoveArnPrefix` | layer_build.py:21 | removes the "arn:aws:s3:::" prefix when present and nothing else |
| `LayerBuild.ArtifactLocationFixedRoundTrip` | layer_build.py:21-24 | with the prefix removed instead of stripped, any bucket without '/' and any key are recovered from the ARN built from them |
| `ListAmis.Newest` | ozone/templates/examples/list_amis.py:48-53 | the index of an image of minimum age (the newest); any image before it is strictly older, so ties keep the earliest |
| `ListAmis.Scan` | ozone/templates/examples/list_amis.py:42-58 | starting from the first image, the loop ends on the newest candidate, the first one on ties. It reports "SUCCESS" with that image's id, or assigns nothing when there is no candidate |
| `ListAmis.SelectLatestImage` | ozone/templates/examples/list_amis.py:42-58 | with no image or one image, `result` and `data` stay unassigned. With two or more, "SUCCESS" and the id of the newest image among all but the last, the first one on ties |
| `ListAmis.SelectLatestImageFixed` | ozone/templates/examples/list_amis.py:42-58 | without the pop, any non-empty list gives "SUCCESS" and the id of the newest image of the whole list |
| `ListAmis.PopMissesNewest` | ozone/templates/examples/list_amis.py:47 | when the last image is strictly newer than all others, the handler reports a strictly older image |
| `ListAmis.PopMissesNewestExample` | ozone/templates/examples/list_amis.py:47 | for two images with the newer one last, the handler reports the older one; without the pop, the newer one |

## Left out

- The SDK calls (`list_roots`, `describe_organizational_unit`, `list_accounts_for_parent`,
  `list_children`, `batch_get_builds`, `describe_images`) and the boto3 clients.
  - They are replaced by the fixture `Client`, the `location` string and the image list.
  - Every call's failure is one `ServiceError` per missing key. Throttling and access
    errors are not told apart.
  - The fixture's children are assumed acyclic, as in a real organization.
- Pagination: every listing is taken as one complete page (`NextToken` is not followed,
  just as the code does not follow it).
- Date handling: `isoformat()` is abstracted to the `IsoTime` value of the same instant.
  `strptime` and `utcnow()` are left out: `CreationDate` is an integer timestamp and `today`
  is a parameter. A `strptime` parse failure caught by the handler is not modelled.
- The `Responder` call (list_amis.py lines 61-65). Sending an unassigned `result` raises
  NameError there; the model returns `None` for an unassigned variable instead.
- `client is None` (organization.py lines 41-42): the client is always given.
- `Organization.__repr__`, the unused `ACCOUNTID_IN_ARN` regex, and `ozone/templates/examples/function_template.py`.
- layer_build.py lines 28-57 (argument parsing, the environment, the template and file
  output).
- Python object identity:
  - `Account.to_dict` returns the object's own `__dict__`, and the accumulator list of
    `get_all_accounts` is extended in place, so a list the caller passes is changed too;
    the model passes and returns values.
  - Dict key order is not modelled, because `map` is unordered.
- `OrganizationTree.Organization.GetAllAccounts` and `OrganizationTree.Organization.ToDict`
  require a live tree (one `to_dict` has not run on). After `to_dict`, the Python code
  raises AttributeError, because the lists hold dicts.
- `OrganizationTree.Organization.New`: its `Acyclic` precondition excludes every fixture
  whose child lists contain a cycle, even a cycle among ids the build never reaches from
  its start id. The ranking covers every listed parent, not only the reachable ones. A real
  organization has no such cycle.

## Findings

| source | as written | input that shows it | evidently intended | confidence | as-written member | corrected member |
|---|---|---|---|---|---|---|
| ozone/organization.py:93-95 | at the first unit with sub-units the walk returns the result of the call on that unit's first sub-unit. That call never adds the sub-unit's own accounts, and the units after it are never visited | root with account a1, unit A with a2, A's unit B with a3: the result is [a1, a2] | every account of the organization (docstring at line 82), here [a1, a2, a3] | not executed | `OrganizationWalk.AsWrittenMissesDeepAccount` | `OrganizationWalk.AllAccountsFixed` |
| layer_build.py:21 | `strip` removes any of the characters a, w, s, :, r, n, 3 at both ends, not the ARN prefix | "arn:aws:s3:::snapshots/layer.zip" gives the bucket "pshots" | remove the "arn:aws:s3:::" prefix, giving "snapshots" | not executed | `LayerBuild.StripEatsBucket` | `LayerBuild.ArtifactLocationFixedRoundTrip` |
| ozone/templates/examples/list_amis.py:47 | `pop()` removes the last image before the scan, so it is never a candidate, and a single image leaves `result` unassigned | two images, the newer one last: the older one's id is reported | scan every image | not executed | `ListAmis.PopMissesNewestExample` | `ListAmis.SelectLatestImageFixed` |
