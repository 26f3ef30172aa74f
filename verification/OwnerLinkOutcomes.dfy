/** What linking and inheriting do to the links, and what the integrity checker reports. */
module OwnerLinkOutcomes {
  import opened Common
  import opened ResourceCodes
  import opened OwnerLinks

  // ---------------------------------------------------------------- linking

  /** What is recorded of a link: the given metadata over what was there, and the moment it was linked. */
  ghost predicate Recorded(before: Metadata, given: Metadata, now: string, after: Metadata) {
    && after.Keys == before.Keys + given.Keys + {"autoOwnershipLinkedAt"}
    && after["autoOwnershipLinkedAt"] == Text(now)
    && forall name :: name in after && name != "autoOwnershipLinkedAt" ==>
         after[name] == if name in given then given[name] else before[name]
  }

  lemma {:induction false} MetadataRecorded(before: Metadata, given: Metadata, now: string)
    ensures Recorded(before, given, now, AutoMetadata(before, given, now))
  {
  }

  /** The link of a resource after it is linked, and all the other links as they were. */
  ghost predicate LinkedAs(links: Links, o: Owned, key: Key, next: Links) {
    && next.Keys == links.Keys + {key} && (forall k :: k in links && k != key ==> next[k] == links[k])
    && next[key].clientId == o.clientId
    && next[key].externalReference == (if o.externalReference == None || Trim(o.externalReference.value) == ""
                                       then None else Some(Trim(o.externalReference.value)))
    && Recorded(if key in links then links[key].metadata else map[], o.metadata, o.now, next[key].metadata)
  }

  lemma {:induction false} WritesLink(links: Links, o: Owned, key: Key)
    ensures var before := if key in links then links[key].metadata else map[];
      LinkedAs(links, o, key, links[key := Link(o.clientId, NormalizeNullable(o.externalReference),
                                                AutoMetadata(before, o.metadata, o.now))])
  {
    MetadataRecorded(if key in links then links[key].metadata else map[], o.metadata, o.now);
  }

  /** Linking, exactly: it needs a type and an id; a resource that belongs to another client is refused unless a
      transfer is allowed; otherwise the one link of the resource names the client, with the trimmed reference or
      none, and no other link changes. */
  lemma {:induction false} LinkOutcome(links: Links, o: Owned)
    ensures var r := Ensure(links, o);
      match Normalize(o.resourceType)
      case None => r == Failure(TypeRequired)
      case Some(code) =>
        if Trim(o.resourceId) == "" then r == Failure(IdRequired)
        else
          var key := Key(o.warehouseId, code, Trim(o.resourceId));
          if key in links && links[key].clientId != o.clientId && !o.allowOwnerTransfer
          then r == Failure(OwnedByAnother)
          else r.Success? && r.value.0 == key && LinkedAs(links, o, key, r.value.1)
  {
    if KeyOf(o.warehouseId, o.resourceType, o.resourceId).Success? {
      WritesLink(links, o, KeyOf(o.warehouseId, o.resourceType, o.resourceId).value);
    }
  }

  /** Inheriting, exactly: without both ids, or from a resource that has no link, nothing happens; an owner that no
      longer exists is refused; otherwise the target is linked to the source's owner as by linking it without a
      transfer, and the link records where its owner came from. */
  lemma {:induction false} InheritOutcome(links: Links, clients: set<string>, i: Inherit)
    ensures var r := InheritOwner(links, clients, i);
      if i.sourceId == "" || i.targetId == "" then r == Success((None, links))
      else match KeyOf(i.warehouseId, i.sourceType, i.sourceId)
        case Failure(e) => r == Failure(e)
        case Success(source) =>
          if source !in links then r == Success((None, links))
          else if links[source].clientId !in clients then r == Failure(ClientMissing)
          else
            var given := map["inheritedFromResourceType" := Text(source.resourceType),
                             "inheritedFromResourceId" := Text(i.sourceId)] + i.metadata;
            match Ensure(links, Owned(i.warehouseId, links[source].clientId, i.targetType, i.targetId, None, given,
                                      false, i.now))
            case Failure(e) => r == Failure(e)
            case Success((key, next)) => r == Success((Some(key), next)) && next[key].clientId == links[source].clientId
  {
  }

  // ---------------------------------------------------------------- the checker

  /** The rows that count: with a type that has letters or digits, and an id and a client that are not blank. */
  lemma {:induction false} CountedRows(rows: seq<Row>, r: Row)
    ensures r in NormalizeRows(rows) <==>
      exists i :: 0 <= i < |rows|
        && Normalize(rows[i].resourceType) == Some(r.resourceType) && Trim(rows[i].resourceId) == r.resourceId != ""
        && Trim(rows[i].clientId) == r.clientId != "" && rows[i].metadata == r.metadata
  {
    NormalizedFrom(rows, r);
    forall i | 0 <= i < |rows|
      ensures NormalizeRow(rows[i]) == Some(r) <==>
        && Normalize(rows[i].resourceType) == Some(r.resourceType) && Trim(rows[i].resourceId) == r.resourceId != ""
        && Trim(rows[i].clientId) == r.clientId != "" && rows[i].metadata == r.metadata
    {
    }
  }

  /** One owner per resource. */
  ghost predicate OneOwner(rows: seq<Row>) {
    forall a, b :: a in rows && b in rows && RowKey(a) == RowKey(b) ==> a.clientId == b.clientId
  }

  lemma {:induction false} FirstWithKey(rows: seq<Row>, key: string)
    ensures FirstWith(rows, key) == None <==> forall r :: r in rows ==> r.resourceType + "::" + r.resourceId != key
    ensures FirstWith(rows, key).Some? ==>
      var p := FirstWith(rows, key).value; p in rows && p.resourceType + "::" + p.resourceId == key
  {
    if rows != [] {
      FirstWithKey(rows[1..], key);
      assert rows == [rows[0]] + rows[1..];
    }
  }

  /** An issue of missing or mismatched inheritance is justified exactly when some row names a parent that no row is
      of, or whose first row belongs to somebody else; two rows of one resource with different owners justify the
      third kind. Where every resource has one owner, any row of the parent will do. */
  lemma {:induction false} IssueMeaning(rows: seq<Row>, child: Row, key: string, owner: string)
    ensures Justified(rows, DuplicateOwner(key)) <==>
      exists i, j :: 0 <= i < |rows| && 0 <= j < |rows| && rows[i].clientId != rows[j].clientId
        && rows[i].resourceType + "::" + rows[i].resourceId == key
        && rows[j].resourceType + "::" + rows[j].resourceId == key
    ensures Justified(rows, MissingParent(child, key)) <==>
      && child in rows && ReadInheritedFrom(child.metadata).Some?
      && key == ReadInheritedFrom(child.metadata).value.0 + "::" + ReadInheritedFrom(child.metadata).value.1
      && forall p :: p in rows ==> p.resourceType + "::" + p.resourceId != key
    ensures OneOwner(rows) ==>
      (Justified(rows, OwnerMismatch(child, key, owner)) <==>
         && child in rows && ReadInheritedFrom(child.metadata).Some?
         && key == ReadInheritedFrom(child.metadata).value.0 + "::" + ReadInheritedFrom(child.metadata).value.1
         && owner != child.clientId
         && exists p :: p in rows && p.resourceType + "::" + p.resourceId == key && p.clientId == owner)
  {
    FirstWithKey(rows, key);
    DuplicateMeaning(rows, key);
    if child in rows && InheritanceIssue(rows, child) == Some(MissingParent(child, key)) {
      assert Justified(rows, MissingParent(child, key));
    }
    if child in rows && InheritanceIssue(rows, child) == Some(OwnerMismatch(child, key, owner)) {
      assert Justified(rows, OwnerMismatch(child, key, owner));
    }
  }

  lemma {:induction false} DuplicateMeaning(rows: seq<Row>, key: string)
    ensures Justified(rows, DuplicateOwner(key)) <==>
      exists i, j :: 0 <= i < |rows| && 0 <= j < |rows| && rows[i].clientId != rows[j].clientId
        && rows[i].resourceType + "::" + rows[i].resourceId == key
        && rows[j].resourceType + "::" + rows[j].resourceId == key
  {
    if SharedBy(rows, key) {
      var i, j :| 0 <= i < |rows| && 0 <= j < |rows| && RowKey(rows[i]) == key && RowKey(rows[j]) == key
                  && rows[i].clientId != rows[j].clientId;
      assert rows[i].resourceType + "::" + rows[i].resourceId == key;
      assert rows[j].resourceType + "::" + rows[j].resourceId == key;
    }
    forall i | 0 <= i < |rows| ensures RowKey(rows[i]) == rows[i].resourceType + "::" + rows[i].resourceId { }
  }

  /** The text that a metadata field holds, if it holds any but white space. */
  predicate HasText(m: Metadata, name: string, value: string) {
    name in m && m[name] == Text(value) && Trim(value) != ""
  }

  /** A parent is read from the two flat fields when both say something, whatever else there is, and otherwise from a
      nested record whose two fields do. */
  lemma {:induction false} ParentIsRead(m: Metadata, nested: Metadata, t: string, i: string)
    requires Normalize(t).Some?
    ensures HasText(m, "inheritedFromResourceType", t) && HasText(m, "inheritedFromResourceId", i) ==>
      ReadInheritedFrom(m) == Some((Normalize(t).value, Trim(i)))
    ensures
      (&& "inheritedFrom" in m && m["inheritedFrom"] == Record(nested)
       && HasText(nested, "resourceType", t) && HasText(nested, "resourceId", i)
       && !(exists x :: HasText(m, "inheritedFromResourceType", x))) ==>
      ReadInheritedFrom(m) == Some((Normalize(t).value, Trim(i)))
  {
    if TYPE_FIELD in m && m[TYPE_FIELD].Text? && Trim(m[TYPE_FIELD].value) != "" {
      assert HasText(m, "inheritedFromResourceType", m[TYPE_FIELD].value);
    }
  }
}
