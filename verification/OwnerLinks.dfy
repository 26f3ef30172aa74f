/** Who owns which resource: link and inherit operations, and the checker that must stay clean. */
module OwnerLinks {
  import opened Common
  import opened ResourceCodes

  datatype Json = Text(value: string) | Record(fields: map<string, Json>) | Other

  type Metadata = map<string, Json>

  datatype Key = Key(warehouseId: string, resourceType: string, resourceId: string)

  datatype Link = Link(clientId: string, externalReference: Option<string>, metadata: Metadata)

  type Links = map<Key, Link>

  datatype LinkError = TypeRequired | IdRequired | OwnedByAnother | ClientMissing

  const TYPE_FIELD := "inheritedFromResourceType"
  const ID_FIELD := "inheritedFromResourceId"
  const NESTED_FIELD := "inheritedFrom"

  /** The normalised key of a resource, or why there is none. */
  function KeyOf(warehouseId: string, resourceType: string, resourceId: string): Result<Key, LinkError> {
    match Normalize(resourceType)
    case None => Failure(TypeRequired)
    case Some(code) =>
        if Trim(resourceId) == "" then Failure(IdRequired) else Success(Key(warehouseId, code, Trim(resourceId)))
  }

  function NormalizeNullable(s: Option<string>): Option<string> {
    if s.Some? && Trim(s.value) != "" then Some(Trim(s.value)) else None
  }

  function AutoMetadata(current: Metadata, next: Metadata, now: string): Metadata {
    current + next + map["autoOwnershipLinkedAt" := Text(now)]
  }

  datatype Owned = Owned(
    warehouseId: string, clientId: string, resourceType: string, resourceId: string,
    externalReference: Option<string>, metadata: Metadata, allowOwnerTransfer: bool, now: string)

  /** `ensureOwnedResourceLink`: create the link, or refresh it if the owner agrees. The reference is written
      even when it is absent, since normalising never gives `undefined`. */
  function Ensure(links: Links, o: Owned): Result<(Key, Links), LinkError> {
    match KeyOf(o.warehouseId, o.resourceType, o.resourceId)
    case Failure(e) => Failure(e)
    case Success(key) =>
      if key in links then
        if links[key].clientId != o.clientId && !o.allowOwnerTransfer then Failure(OwnedByAnother)
        else Success((key, links[key := Link(o.clientId, NormalizeNullable(o.externalReference),
                                             AutoMetadata(links[key].metadata, o.metadata, o.now))]))
      else Success((key,
        links[key := Link(o.clientId, NormalizeNullable(o.externalReference), AutoMetadata(map[], o.metadata, o.now))]))
  }

  /** `findResourceOwner` against the existing client ids. */
  function FindOwner(links: Links, clients: set<string>, warehouseId: string, resourceType: string, resourceId: string)
    : Result<Option<string>, LinkError>
  {
    match KeyOf(warehouseId, resourceType, resourceId)
    case Failure(e) => Failure(e)
    case Success(key) =>
      if key !in links then Success(None)
      else if links[key].clientId !in clients then Failure(ClientMissing)
      else Success(Some(links[key].clientId))
  }

  datatype Inherit = Inherit(
    warehouseId: string, sourceType: string, sourceId: string, targetType: string,
        targetId: string, metadata: Metadata, now: string)

  function TypeText(resourceType: string): Json {
    if Normalize(resourceType).Some? then Text(Normalize(resourceType).value) else Other
  }

  /** What `inheritOwnerFromResource` asks to link, once the owner is known. */
  function Inherited(i: Inherit, owner: string): Owned {
    Owned(i.warehouseId, owner, i.targetType, i.targetId, None,
          map[TYPE_FIELD := TypeText(i.sourceType), ID_FIELD := Text(i.sourceId)] + i.metadata, false, i.now)
  }

  /** Nothing happens without both ids, or when the source has no owner. */
  function InheritOwner(links: Links, clients: set<string>, i: Inherit): Result<(Option<Key>, Links), LinkError> {
    if i.sourceId == "" || i.targetId == "" then Success((None, links))
    else match FindOwner(links, clients, i.warehouseId, i.sourceType, i.sourceId)
      case Failure(e) => Failure(e)
      case Success(None) => Success((None, links))
      case Success(Some(owner)) =>
        match Ensure(links, Inherited(i, owner))
        case Failure(e) => Failure(e)
        case Success((key, next)) => Success((Some(key), next))
  }

  // ---------------------------------------------------------------- the checker

  function Field(m: Metadata, name: string): Option<string> {
    if name in m && m[name].Text? && Trim(m[name].value) != "" then Some(m[name].value) else None
  }

  function Reference(fields: Metadata, typeField: string, idField: string): Option<(string, string)> {
    var t, i := Field(fields, typeField), Field(fields, idField);
    if t.Some? && i.Some? && Normalize(t.value).Some? then Some((Normalize(t.value).value, Trim(i.value))) else None
  }

  /** `readInheritedFrom`: the flat fields, else the nested record. */
  function ReadInheritedFrom(m: Metadata): Option<(string, string)> {
    var flat := Reference(m, TYPE_FIELD, ID_FIELD);
    if flat.Some? then flat
    else if NESTED_FIELD in m && m[NESTED_FIELD].Record?
      then Reference(m[NESTED_FIELD].fields, "resourceType", "resourceId")
    else None
  }

  /** A row as the checker receives it. */
  datatype Row = Row(clientId: string, resourceType: string, resourceId: string, metadata: Metadata)

  function NormalizeRow(r: Row): Option<Row> {
    if Normalize(r.resourceType).None? || Trim(r.resourceId) == "" || Trim(r.clientId) == "" then None
    else Some(Row(Trim(r.clientId), Normalize(r.resourceType).value, Trim(r.resourceId), r.metadata))
  }

  function NormalizeRows(rows: seq<Row>): seq<Row> {
    if rows == [] then []
    else (if NormalizeRow(rows[0]).Some? then [NormalizeRow(rows[0]).value] else []) + NormalizeRows(rows[1..])
  }

  function RowKey(r: Row): string { ResourceKey(r.resourceType, r.resourceId) }

  datatype Issue =
    | DuplicateOwner(key: string)
    | MissingParent(row: Row, parentKey: string)
    | OwnerMismatch(row: Row, parentKey: string, expected: string)

  /** The first of the rows with a key, the one a map of groups gives. */
  function FirstWith(rows: seq<Row>, key: string): Option<Row> {
    if rows == [] then None else if RowKey(rows[0]) == key then Some(rows[0]) else FirstWith(rows[1..], key)
  }

  /** What the checker says of one row's inheritance. */
  function InheritanceIssue(rows: seq<Row>, r: Row): Option<Issue> {
    match ReadInheritedFrom(r.metadata)
    case None => None
    case Some((t, i)) =>
      match FirstWith(rows, ResourceKey(t, i))
      case None => Some(MissingParent(r, ResourceKey(t, i)))
      case Some(parent) =>
        if parent.clientId != r.clientId then Some(OwnerMismatch(r, ResourceKey(t, i), parent.clientId)) else None
  }

  ghost predicate SharedBy(rows: seq<Row>, key: string) {
    exists i, j :: 0 <= i < |rows| && 0 <= j < |rows| && RowKey(rows[i]) == key && RowKey(rows[j]) == key
                   && rows[i].clientId != rows[j].clientId
  }

  function WithKey(rows: seq<Row>, key: string): seq<Row> {
    if rows == [] then [] else (if RowKey(rows[0]) == key then [rows[0]] else []) + WithKey(rows[1..], key)
  }

  ghost predicate Justified(rows: seq<Row>, x: Issue) {
    match x
    case DuplicateOwner(key) => SharedBy(rows, key)
    case _ => exists r :: r in rows && InheritanceIssue(rows, r) == Some(x)
  }

  ghost predicate Grouped(rows: seq<Row>, groups: map<string, seq<Row>>, order: seq<string>) {
    && (forall k :: k in groups <==> WithKey(rows, k) != [])
    && (forall k :: k in groups ==> groups[k] == WithKey(rows, k))
    && (forall k :: k in groups <==> k in order)
  }

  lemma {:induction false} WithKeySnoc(rows: seq<Row>, r: Row, key: string)
    ensures WithKey(rows + [r], key) == WithKey(rows, key) + if RowKey(r) == key then [r] else []
  {
    if rows == [] { assert [] + [r] == [r] && [r][1..] == []; }
    else { assert (rows + [r])[1..] == rows[1..] + [r]; WithKeySnoc(rows[1..], r, key); }
  }

  lemma {:induction false} WithKeyMembers(rows: seq<Row>, key: string, r: Row)
    ensures r in WithKey(rows, key) <==> r in rows && RowKey(r) == key
  {
    if rows != [] { WithKeyMembers(rows[1..], key, r); }
  }

  lemma {:induction false} FirstIsHead(rows: seq<Row>, key: string)
    ensures FirstWith(rows, key) == if WithKey(rows, key) == [] then None else Some(WithKey(rows, key)[0])
  {
    if rows != [] && RowKey(rows[0]) != key {
      FirstIsHead(rows[1..], key);
      assert [] + WithKey(rows[1..], key) == WithKey(rows[1..], key);
    }
  }

  /** The grouping loop; `order` is the insertion order of the keys. */
  method GroupByResource(rows: seq<Row>) returns (groups: map<string, seq<Row>>, order: seq<string>)
    ensures Grouped(rows, groups, order)
  {
    groups, order := map[], [];
    for n := 0 to |rows|
      invariant Grouped(rows[..n], groups, order)
    {
      var key := RowKey(rows[n]);
      assert rows[..n + 1] == rows[..n] + [rows[n]];
      forall k ensures WithKey(rows[..n + 1], k) == WithKey(rows[..n], k) + if k == key then [rows[n]] else [] {
        WithKeySnoc(rows[..n], rows[n], k);
      }
      if key !in groups { order := order + [key]; }
      groups := groups[key := (if key in groups then groups[key] else []) + [rows[n]]];
    }
    assert rows[..|rows|] == rows;
  }

  lemma {:induction false} TwoMembers(ids: set<string>) returns (a: string, b: string)
    requires |ids| > 1
    ensures a in ids && b in ids && a != b
  {
    a :| a in ids;
    assert ids == {a} + (ids - {a}) && |ids| == 1 + |ids - {a}|;
    b :| b in ids - {a};
  }

  lemma {:induction false} MemberAt(rows: seq<Row>, key: string, r: Row) returns (i: nat)
    requires r in WithKey(rows, key)
    ensures i < |rows| && rows[i] == r && RowKey(r) == key
  {
    WithKeyMembers(rows, key, r);
    i :| 0 <= i < |rows| && rows[i] == r;
  }

  lemma {:induction false} ManyOwners(rows: seq<Row>, key: string, ids: set<string>)
    requires ids == set r | r in WithKey(rows, key) :: r.clientId
    ensures |ids| > 1 <==> SharedBy(rows, key)
  {
    if |ids| > 1 {
      var a, b := TwoMembers(ids);
      var r :| r in WithKey(rows, key) && r.clientId == a;
      var q :| q in WithKey(rows, key) && q.clientId == b;
      var i := MemberAt(rows, key, r);
      var j := MemberAt(rows, key, q);
      assert rows[i].clientId != rows[j].clientId;
    } else if SharedBy(rows, key) {
      SharedMeansMany(rows, key, ids);
    }
  }

  lemma {:induction false} SharedMeansMany(rows: seq<Row>, key: string, ids: set<string>)
    requires ids == (set r | r in WithKey(rows, key) :: r.clientId) && SharedBy(rows, key)
    ensures |ids| > 1
  {
    var i, j :| 0 <= i < |rows| && 0 <= j < |rows| && RowKey(rows[i]) == key && RowKey(rows[j]) == key
                && rows[i].clientId != rows[j].clientId;
    WithKeyMembers(rows, key, rows[i]);
    WithKeyMembers(rows, key, rows[j]);
    SmallerSet({rows[i].clientId, rows[j].clientId}, ids);
  }

  lemma {:induction false} SmallerSet(a: set<string>, b: set<string>)
    requires a <= b
    ensures |a| <= |b|
  {
    if a != {} {
      var x :| x in a;
      SmallerSet(a - {x}, b - {x});
    }
  }

  /** The first loop of the checker: resources with several owners. */
  method FindDuplicates(rows: seq<Row>, groups: map<string, seq<Row>>, order: seq<string>) returns (issues: seq<Issue>)
    requires Grouped(rows, groups, order)
    ensures forall x :: x in issues <==> x.DuplicateOwner? && SharedBy(rows, x.key)
  {
    issues := [];
    for n := 0 to |order|
      invariant forall x :: x in issues <==> x.DuplicateOwner? && x.key in order[..n] && SharedBy(rows, x.key)
    {
      assert order[n] in order && order[..n + 1] == order[..n] + [order[n]];
      var group: seq<Row> := groups[order[n]];
      var ids := set r | r in group :: r.clientId;
      ManyOwners(rows, order[n], ids);
      if |ids| > 1 { issues := issues + [DuplicateOwner(order[n])]; }
    }
    assert order[..|order|] == order;
    forall key | SharedBy(rows, key) ensures key in order { SharedIsGrouped(rows, key); }
  }

  ghost predicate InheritanceAmong(rows: seq<Row>, n: nat, x: Issue)
    requires n <= |rows|
  {
    exists k :: 0 <= k < n && InheritanceIssue(rows, rows[k]) == Some(x)
  }

  lemma {:induction false} InheritanceNext(rows: seq<Row>, n: nat, issues: seq<Issue>)
    requires n < |rows| && forall x :: x in issues <==> InheritanceAmong(rows, n, x)
    ensures var more := issues + match InheritanceIssue(rows, rows[n]) case None => [] case Some(x) => [x];
      forall x :: x in more <==> InheritanceAmong(rows, n + 1, x)
  {
    var more := issues + match InheritanceIssue(rows, rows[n]) case None => [] case Some(x) => [x];
    forall x ensures x in more <==> InheritanceAmong(rows, n + 1, x) {
      assert x in more <==> x in issues || InheritanceIssue(rows, rows[n]) == Some(x);
      if x in issues { var k :| 0 <= k < n && InheritanceIssue(rows, rows[k]) == Some(x); }
    }
  }

  /** The second loop: inherited owners without a parent, or with another owner than its parent's. */
  method FindInheritanceIssues(rows: seq<Row>, groups: map<string, seq<Row>>, ghost order: seq<string>)
    returns (issues: seq<Issue>)
    requires Grouped(rows, groups, order)
    ensures forall x :: x in issues <==> InheritanceAmong(rows, |rows|, x)
  {
    issues := [];
    for n := 0 to |rows|
      invariant forall x :: x in issues <==> InheritanceAmong(rows, n, x)
    {
      InheritanceNext(rows, n, issues);
      var found := ReadInheritedFrom(rows[n].metadata);
      if found.Some? {
        var key := ResourceKey(found.value.0, found.value.1);
        FirstIsHead(rows, key);
        if key !in groups {
          issues := issues + [MissingParent(rows[n], key)];
        } else {
          var parent: Row := groups[key][0];
          if parent.clientId != rows[n].clientId { issues := issues + [OwnerMismatch(rows[n], key, parent.clientId)]; }
        }
      }
    }
  }

  lemma {:induction false} AmongAreJustified(rows: seq<Row>, x: Issue)
    ensures InheritanceAmong(rows, |rows|, x) <==> !x.DuplicateOwner? && Justified(rows, x)
  {
    if InheritanceAmong(rows, |rows|, x) {
      var k :| 0 <= k < |rows| && InheritanceIssue(rows, rows[k]) == Some(x);
      assert rows[k] in rows;
    } else if !x.DuplicateOwner? {
      forall r | r in rows ensures InheritanceIssue(rows, r) != Some(x) {
        var k :| 0 <= k < |rows| && rows[k] == r;
      }
    }
  }

  /** The checker: every issue it reports is justified by the rows, and none is missed. */
  method EvaluateOwnershipIntegrity(links: seq<Row>) returns (totalLinks: nat, issues: seq<Issue>)
    ensures totalLinks == |NormalizeRows(links)|
    ensures forall x :: x in issues <==> Justified(NormalizeRows(links), x)
  {
    var rows := NormalizeRows(links);
    var groups, order := GroupByResource(rows);
    var duplicates := FindDuplicates(rows, groups, order);
    var inherited := FindInheritanceIssues(rows, groups, order);
    totalLinks, issues := |rows|, duplicates + inherited;
    forall x ensures x in issues <==> Justified(rows, x) { AmongAreJustified(rows, x); }
  }

  lemma {:induction false} SharedIsGrouped(rows: seq<Row>, key: string)
    requires SharedBy(rows, key)
    ensures WithKey(rows, key) != []
  {
    var i, j :| 0 <= i < |rows| && 0 <= j < |rows| && RowKey(rows[i]) == key && RowKey(rows[j]) == key
                && rows[i].clientId != rows[j].clientId;
    WithKeyMembers(rows, key, rows[i]);
  }

  // ---------------------------------------------------------------- what the operations keep

  /** The parent that a link says its owner came from, if any. */
  function ParentOf(k: Key, m: Metadata): Option<Key> {
    match ReadInheritedFrom(m)
    case None => None
    case Some((t, i)) => Some(Key(k.warehouseId, t, i))
  }

  ghost predicate Stored(k: Key) { Code(k.resourceType) && k.resourceId != "" && Trimmed(k.resourceId) }

  ghost predicate ParentAgrees(links: Links, k: Key)
    requires k in links
  {
    var p := ParentOf(k, links[k].metadata);
    p.Some? ==> p.value in links && links[p.value].clientId == links[k].clientId
  }

  ghost predicate Inv(links: Links) { forall k :: k in links ==> Stored(k) && ParentAgrees(links, k) }

  /** Caller metadata without inheritance keys. */
  predicate Plain(m: Metadata) { TYPE_FIELD !in m && ID_FIELD !in m && NESTED_FIELD !in m }

  lemma {:induction false} KeysAreStored(warehouseId: string, resourceType: string, resourceId: string)
    ensures KeyOf(warehouseId, resourceType, resourceId).Success? ==>
      Stored(KeyOf(warehouseId, resourceType, resourceId).value)
  {
    NormalizeGivesCode(resourceType);
    TrimIsTrimmed(resourceId);
  }

  /** Refreshing with plain metadata keeps what a link says about its parent. */
  lemma {:induction false} PlainKeepsParent(current: Metadata, next: Metadata, now: string)
    requires Plain(next)
    ensures ReadInheritedFrom(AutoMetadata(current, next, now)) == ReadInheritedFrom(current)
  {
    var m := AutoMetadata(current, next, now);
    assert "autoOwnershipLinkedAt"[0] != TYPE_FIELD[0];
    assert TYPE_FIELD[0] == ID_FIELD[0] == NESTED_FIELD[0] == 'i';
    assert Field(m, TYPE_FIELD) == Field(current, TYPE_FIELD) && Field(m, ID_FIELD) == Field(current, ID_FIELD);
    assert (NESTED_FIELD in m <==> NESTED_FIELD in current)
      && (NESTED_FIELD in m ==> m[NESTED_FIELD] == current[NESTED_FIELD]);
  }

  /** Inheriting records the normalised source, which reads back as the source's own key. */
  lemma {:induction false} InheritedParent(current: Metadata, i: Inherit, owner: string, source: Key)
    requires Plain(i.metadata) && KeyOf(i.warehouseId, i.sourceType, i.sourceId) == Success(source)
    ensures ReadInheritedFrom(AutoMetadata(current, Inherited(i, owner).metadata, i.now))
      == Some((source.resourceType, source.resourceId))
  {
    var m := AutoMetadata(current, Inherited(i, owner).metadata, i.now);
    assert "autoOwnershipLinkedAt"[0] != TYPE_FIELD[0];
    assert TYPE_FIELD[0] == ID_FIELD[0] == 'i' && |TYPE_FIELD| != |ID_FIELD|;
    var code := Normalize(i.sourceType).value;
    assert m[TYPE_FIELD] == Text(code) && m[ID_FIELD] == Text(i.sourceId);
    NormalizeGivesCode(i.sourceType);
    NormalizeIdempotent(i.sourceType);
    CodeIsNotBlank(code);
  }

  lemma {:induction false} CodeIsNotBlank(s: string)
    requires Code(s)
    ensures Trim(s) != ""
  {
    assert Alnum(s[0]) && Alnum(s[|s| - 1]);
    assert !IsSpace(s[0]) && !IsSpace(s[|s| - 1]);
    TrimIsTrimmed(s);
  }

  /** A link written for `owner` whose recorded parent, if any, is owned by the same client. */
  lemma {:induction false} WriteKeepsInv(links: Links, key: Key, link: Link, links': Links)
    requires Inv(links) && Stored(key) && links' == links[key := link]
    requires key in links ==> links[key].clientId == link.clientId
    requires ParentOf(key, link.metadata).Some? ==>
      var p := ParentOf(key, link.metadata).value; p in links && links[p].clientId == link.clientId
    ensures Inv(links')
    ensures forall k :: k in links ==> k in links' && links'[k].clientId == links[k].clientId
  {
    forall k | k in links' ensures Stored(k) && ParentAgrees(links', k) {
      if k != key { assert ParentAgrees(links, k); }
    }
  }

  /** Every resource keeps its owner. */
  ghost predicate OwnersKept(links: Links, links': Links) {
    forall k :: k in links ==> k in links' && links'[k].clientId == links[k].clientId
  }

  lemma {:induction false} EnsureKeepsInv(links: Links, o: Owned, key: Key, links': Links)
    requires Inv(links) && Plain(o.metadata) && !o.allowOwnerTransfer
    requires Ensure(links, o) == Success((key, links'))
    ensures Inv(links') && OwnersKept(links, links')
  {
    KeysAreStored(o.warehouseId, o.resourceType, o.resourceId);
    var current := if key in links then links[key].metadata else map[];
    PlainKeepsParent(current, o.metadata, o.now);
    if key in links { assert ParentAgrees(links, key); }
    WriteKeepsInv(links, key, links'[key], links');
  }

  lemma {:induction false} InheritKeepsInv(links: Links, clients: set<string>, i: Inherit, links': Links)
    requires Inv(links) && Plain(i.metadata)
    requires InheritOwner(links, clients, i).Success? && InheritOwner(links, clients, i).value.1 == links'
    ensures Inv(links') && OwnersKept(links, links')
  {
    if links' != links {
      var source := KeyOf(i.warehouseId, i.sourceType, i.sourceId).value;
      var o := Inherited(i, links[source].clientId);
      var key := KeyOf(i.warehouseId, i.targetType, i.targetId).value;
      KeysAreStored(i.warehouseId, i.targetType, i.targetId);
      InheritedParent(if key in links then links[key].metadata else map[], i, links[source].clientId, source);
      WriteKeepsInv(links, key, links'[key], links');
    }
  }

  // ---------------------------------------------------------------- runs

  datatype Action = LinkResource(owned: Owned) | InheritOwnership(inherit: Inherit)

  /** No owner transfer, and caller metadata free of inheritance keys. */
  predicate Allowed(a: Action) {
    match a
    case LinkResource(o) => Plain(o.metadata) && !o.allowOwnerTransfer
    case InheritOwnership(i) => Plain(i.metadata)
  }

  /** A failed operation changes no link. */
  function Next(links: Links, clients: set<string>, a: Action): Links {
    match a
    case LinkResource(o) => (match Ensure(links, o) case Success((_, next)) => next case Failure(_) => links)
    case InheritOwnership(i) =>
        (match InheritOwner(links, clients, i) case Success((_, next)) => next case Failure(_) => links)
  }

  function Run(links: Links, clients: set<string>, actions: seq<Action>): Links
    decreases |actions|
  {
    if actions == [] then links else Run(Next(links, clients, actions[0]), clients, actions[1..])
  }

  lemma {:induction false} RunKeepsInv(links: Links, clients: set<string>, actions: seq<Action>)
    requires Inv(links) && forall a :: a in actions ==> Allowed(a)
    ensures Inv(Run(links, clients, actions)) && OwnersKept(links, Run(links, clients, actions))
    decreases |actions|
  {
    if actions != [] {
      var a, next := actions[0], Next(links, clients, actions[0]);
      assert a in actions;
      if next != links {
        match a
        case LinkResource(o) => EnsureKeepsInv(links, o, Ensure(links, o).value.0, next);
        case InheritOwnership(i) => InheritKeepsInv(links, clients, i, next);
      }
      RunKeepsInv(next, clients, actions[1..]);
    }
  }

  // ---------------------------------------------------------------- the checker finds nothing

  function RowOf(k: Key, link: Link): Row { Row(link.clientId, k.resourceType, k.resourceId, link.metadata) }

  /** The rows of a warehouse's links, each once, in any order. */
  ghost predicate Lists(links: Links, warehouseId: string, keys: seq<Key>, rows: seq<Row>) {
    && |keys| == |rows|
    && (forall k :: k in keys <==> k in links && k.warehouseId == warehouseId)
    && (forall i :: 0 <= i < |keys| ==> rows[i] == RowOf(keys[i], links[keys[i]]))
  }

  lemma {:induction false} NormalizedFrom(rows: seq<Row>, r: Row)
    ensures r in NormalizeRows(rows) <==> exists i :: 0 <= i < |rows| && NormalizeRow(rows[i]) == Some(r)
  {
    if rows != [] {
      NormalizedFrom(rows[1..], r);
      if r in NormalizeRows(rows[1..]) {
        var i :| 0 <= i < |rows[1..]| && NormalizeRow(rows[1..][i]) == Some(r);
        assert NormalizeRow(rows[i + 1]) == Some(r);
      }
      if i :| 0 <= i < |rows| && NormalizeRow(rows[i]) == Some(r) && i > 0 { assert rows[1..][i - 1] == rows[i]; }
    }
  }

  lemma {:induction false} StoredRow(links: Links, k: Key)
    requires Inv(links) && k in links
    ensures NormalizeRow(RowOf(k, links[k])) ==
      if Trim(links[k].clientId) == "" then None
      else Some(Row(Trim(links[k].clientId), k.resourceType, k.resourceId, links[k].metadata))
  {
    NormalizeKeepsCode(k.resourceType);
    TrimIsTrimmed(k.resourceId);
  }

  /** A normalised row comes from a stored link. */
  lemma {:induction false} LinkOfRow(links: Links, w: string, keys: seq<Key>, rows: seq<Row>, r: Row) returns (k: Key)
    requires Inv(links) && Lists(links, w, keys, rows) && r in NormalizeRows(rows)
    ensures k in links && k.warehouseId == w && Trim(links[k].clientId) != ""
    ensures r == Row(Trim(links[k].clientId), k.resourceType, k.resourceId, links[k].metadata)
  {
    NormalizedFrom(rows, r);
    var i :| 0 <= i < |rows| && NormalizeRow(rows[i]) == Some(r);
    k := keys[i];
    assert k in keys;
    StoredRow(links, k);
  }

  lemma {:induction false} RowOfLink(links: Links, w: string, keys: seq<Key>, rows: seq<Row>, k: Key)
    requires Inv(links) && Lists(links, w, keys, rows) && k in links
      && k.warehouseId == w && Trim(links[k].clientId) != ""
    ensures Row(Trim(links[k].clientId), k.resourceType, k.resourceId, links[k].metadata) in NormalizeRows(rows)
  {
    assert k in keys;
    var i :| 0 <= i < |keys| && keys[i] == k;
    StoredRow(links, k);
    NormalizedFrom(rows, Row(Trim(links[k].clientId), k.resourceType, k.resourceId, links[k].metadata));
    assert NormalizeRow(rows[i]).Some?;
  }

  /** Rows with the same key string are the same resource, because codes contain no colon. */
  lemma {:induction false} SameKeySameOwner(links: Links, w: string, keys: seq<Key>, rows: seq<Row>, a: Row, b: Row)
    requires Inv(links) && Lists(links, w, keys, rows)
    requires a in NormalizeRows(rows) && b in NormalizeRows(rows) && RowKey(a) == RowKey(b)
    ensures a.clientId == b.clientId
  {
    var k := LinkOfRow(links, w, keys, rows, a);
    var j := LinkOfRow(links, w, keys, rows, b);
    assert Stored(k) && Stored(j);
    ResourceKeyInjective(a.resourceType, a.resourceId, b.resourceType, b.resourceId);
    assert k == j;
  }

  lemma {:induction false} FirstWithFinds(rows: seq<Row>, key: string, r: Row)
    requires r in rows && RowKey(r) == key
    ensures FirstWith(rows, key).Some? && FirstWith(rows, key).value in rows
      && RowKey(FirstWith(rows, key).value) == key
  {
    if RowKey(rows[0]) != key { assert r in rows[1..]; FirstWithFinds(rows[1..], key, r); }
  }

  lemma {:induction false} NoInheritanceIssue(links: Links, w: string, keys: seq<Key>, rows: seq<Row>, r: Row)
    requires Inv(links) && Lists(links, w, keys, rows) && r in NormalizeRows(rows)
    ensures InheritanceIssue(NormalizeRows(rows), r) == None
  {
    var k := LinkOfRow(links, w, keys, rows, r);
    var from := ReadInheritedFrom(r.metadata);
    if from.Some? {
      assert ParentAgrees(links, k);
      var p := ParentOf(k, links[k].metadata).value;
      RowOfLink(links, w, keys, rows, p);
      var parent := Row(Trim(links[p].clientId), p.resourceType, p.resourceId, links[p].metadata);
      FirstWithFinds(NormalizeRows(rows), RowKey(parent), parent);
      SameKeySameOwner(links, w, keys, rows, parent, FirstWith(NormalizeRows(rows), RowKey(parent)).value);
    }
  }

  /** Over every run of links and inheritances without owner transfer and with plain caller metadata: links
      never lose or change their owner, and the checker, given any listing of a warehouse's links,
      reports no issue at all. */
  lemma {:induction false} RunsStayClean(clients: set<string>, before: seq<Action>, after: seq<Action>, w: string,
                                         keys: seq<Key>, rows: seq<Row>)
    requires forall a :: a in before + after ==> Allowed(a)
    requires Lists(Run(map[], clients, before + after), w, keys, rows)
    ensures OwnersKept(Run(map[], clients, before), Run(map[], clients, before + after))
    ensures forall x :: !Justified(NormalizeRows(rows), x)
  {
    forall a | a in before ensures Allowed(a) { assert a in before + after; }
    forall a | a in after ensures Allowed(a) { assert a in before + after; }
    RunKeepsInv(map[], clients, before);
    RunConcat(map[], clients, before, after);
    RunKeepsInv(Run(map[], clients, before), clients, after);
    var links := Run(map[], clients, before + after);
    forall x ensures !Justified(NormalizeRows(rows), x) { CleanListing(links, w, keys, rows, x); }
  }

  lemma {:induction false} RunConcat(links: Links, clients: set<string>, a: seq<Action>, b: seq<Action>)
    ensures Run(links, clients, a + b) == Run(Run(links, clients, a), clients, b)
    decreases |a|
  {
    if a == [] { assert a + b == b; }
    else { assert (a + b)[1..] == a[1..] + b; RunConcat(Next(links, clients, a[0]), clients, a[1..], b); }
  }

  lemma {:induction false} CleanListing(links: Links, w: string, keys: seq<Key>, rows: seq<Row>, x: Issue)
    requires Inv(links) && Lists(links, w, keys, rows)
    ensures !Justified(NormalizeRows(rows), x)
  {
    var ns := NormalizeRows(rows);
    if x.DuplicateOwner? {
      forall i, j | 0 <= i < |ns| && 0 <= j < |ns| && RowKey(ns[i]) == x.key && RowKey(ns[j]) == x.key
        ensures ns[i].clientId == ns[j].clientId
      {
        SameKeySameOwner(links, w, keys, rows, ns[i], ns[j]);
      }
    } else {
      forall r | r in ns ensures InheritanceIssue(ns, r) != Some(x) { NoInheritanceIssue(links, w, keys, rows, r); }
    }
  }

  lemma {:induction false} HasMember(issues: seq<Issue>)
    requires issues != []
    ensures exists x :: x in issues
  {
    assert issues[0] in issues;
  }

  /** `checkOwnershipIntegrity` of a warehouse after any such run: the summary is empty. `rows` is the database's
      listing of the warehouse's links. */
  method CheckOwnershipIntegrity(rows: seq<Row>, ghost clients: set<string>, ghost actions: seq<Action>,
                                 ghost w: string, ghost keys: seq<Key>)
    returns (totalLinks: nat, issues: seq<Issue>)
    requires forall a :: a in actions ==> Allowed(a)
    requires Lists(Run(map[], clients, actions), w, keys, rows)
    ensures totalLinks == |NormalizeRows(rows)| && issues == []
  {
    totalLinks, issues := EvaluateOwnershipIntegrity(rows);
    assert [] + actions == actions;
    RunsStayClean(clients, [], actions, w, keys, rows);
    if issues != [] { HasMember(issues); assert false; }
  }

  // ---------------------------------------------------------------- the services

  /** Linking the first `n` resources in turn. */
  function Steps(resources: seq<Owned>, n: nat): seq<Action>
    requires n <= |resources|
  {
    seq(n, i requires 0 <= i < |resources| => LinkResource(resources[i]))
  }

  class OwnerScopeService {
    var clients: set<string>
    var links: Links

    constructor (clientIds: set<string>)
      ensures clients == clientIds && links == map[]
    {
      clients, links := clientIds, map[];
    }

    method EnsureOwnedResourceLink(o: Owned) returns (result: Result<Link, LinkError>)
      modifies this`links
      ensures match Ensure(old(links), o)
        case Success((key, next)) => links == next && result == Success(next[key])
        case Failure(e) => links == old(links) && result == Failure(e)
    {
      var code := Normalize(o.resourceType);
      if code.None? { return Failure(TypeRequired); }
      var id := Trim(o.resourceId);
      if id == "" { return Failure(IdRequired); }
      var key := Key(o.warehouseId, code.value, id);
      var reference := NormalizeNullable(o.externalReference);
      if key in links {
        var existing := links[key];
        if existing.clientId != o.clientId && !o.allowOwnerTransfer { return Failure(OwnedByAnother); }
        links := links[key := Link(o.clientId, reference, AutoMetadata(existing.metadata, o.metadata, o.now))];
      } else {
        links := links[key := Link(o.clientId, reference, AutoMetadata(map[], o.metadata, o.now))];
      }
      return Success(links[key]);
    }

    /** One link after another, stopping at the first that fails; the `done` before it stay. */
    method EnsureOwnedResourceLinks(resources: seq<Owned>)
      returns (result: Result<seq<Link>, LinkError>, ghost done: nat)
      modifies this`links
      ensures done <= |resources| && links == Run(old(links), clients, Steps(resources, done))
      ensures result.Success? ==> done == |resources| == |result.value|
      ensures result.Failure? ==> done < |resources| && Ensure(links, resources[done]) == Failure(result.error)
    {
      var linked: seq<Link> := [];
      done := 0;
      for n := 0 to |resources|
        invariant |linked| == n == done && links == Run(old(links), clients, Steps(resources, n))
      {
        var link := EnsureOwnedResourceLink(resources[n]);
        if link.Failure? { return Failure(link.error), done; }
        linked := linked + [link.value];
        RunSnoc(old(links), clients, resources, n);
        done := done + 1;
      }
      return Success(linked), done;
    }

    method InheritOwnerFromResource(i: Inherit) returns (result: Result<Option<Link>, LinkError>)
      modifies this`links
      ensures match InheritOwner(old(links), clients, i)
        case Success((key, next)) => links == next
            && result == Success(if key.Some? then Some(next[key.value]) else None)
        case Failure(e) => links == old(links) && result == Failure(e)
    {
      if i.sourceId == "" || i.targetId == "" { return Success(None); }
      var owner := FindOwner(links, clients, i.warehouseId, i.sourceType, i.sourceId);
      if owner.Failure? { return Failure(owner.error); }
      if owner.value.None? { return Success(None); }
      var link := EnsureOwnedResourceLink(Inherited(i, owner.value.value));
      if link.Failure? { return Failure(link.error); }
      return Success(Some(link.value));
    }
  }

  lemma {:induction false} RunSnoc(links: Links, clients: set<string>, resources: seq<Owned>, n: nat)
    requires n < |resources|
    ensures Run(links, clients, Steps(resources, n + 1))
      == Next(Run(links, clients, Steps(resources, n)), clients, LinkResource(resources[n]))
  {
    var last := [LinkResource(resources[n])];
    assert Steps(resources, n + 1) == Steps(resources, n) + last;
    RunConcat(links, clients, Steps(resources, n), last);
    assert last[1..] == [];
  }
}
