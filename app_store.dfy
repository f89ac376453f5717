/**
 * The application store's crosswalk configuration, ContentDM preferences
 * and error list: an object whose methods update its fields in place.
 */
module AppStore {
  import opened Wrappers
  import opened AppState
  import opened ExportTypes

  /** A JavaScript `Error` held in the store's list; removal compares identity, not text. */
  class AppError {
    const message: string

    constructor (message: string)
      ensures this.message == message
    {
      this.message := message;
    }
  }

  /** A crosswalk entry as loaded from storage, where `nicks` may be missing. */
  datatype StoredField = StoredField(nicks: Option<seq<string>>, itemExport: bool)

  /** A crosswalk as loaded from storage. */
  type StoredCrosswalk = map<string, map<string, StoredField>>

  /** `_crosswalkDefaultField`: one empty nick, not exported for items. */
  function CrosswalkDefaultField(): CrosswalkField
  {
    CrosswalkField([""], false)
  }

  /** The hash `_crosswalkDefault` builds: the default entry for every preference field. */
  function DefaultHash(fields: seq<Field>): CrosswalkFieldHash
  {
    map id | id in FieldIds(fields) :: CrosswalkDefaultField()
  }

  /** One more field adds its default entry. */
  lemma DefaultHashSnoc(fields: seq<Field>, f: Field)
    ensures DefaultHash(fields + [f]) == DefaultHash(fields)[f.id := CrosswalkDefaultField()]
  {
    FieldIdsSnoc(fields, f);
  }

  /** `_checkCrosswalkFields`: an entry with missing nicks becomes the default entry; any other is kept. */
  function CheckCrosswalkFields(field: StoredField): (r: CrosswalkField)
    ensures field.nicks.None? ==> r == CrosswalkDefaultField()
    ensures field.nicks.Some? ==> r.nicks == field.nicks.value && r.itemExport == field.itemExport
  {
    if field.nicks.None? then CrosswalkDefaultField() else CrosswalkField(field.nicks.value, field.itemExport)
  }

  /** A field hash converted entry by entry from a stored one, with the same keys. */
  predicate HashConverted(hash: CrosswalkFieldHash, stored: map<string, StoredField>)
  {
    hash.Keys == stored.Keys && forall f :: f in hash ==> hash[f] == CheckCrosswalkFields(stored[f])
  }

  /**
   * `_convertCrosswalk`: the same aliases and, per alias, the same field
   * keys, each entry checked; a stored `null` iterates as no alias.
   */
  method ConvertCrosswalk(stored: Option<StoredCrosswalk>) returns (crosswalk: Crosswalk)
    ensures stored.None? ==> crosswalk == map[]
    ensures stored.Some? ==> crosswalk.Keys == stored.value.Keys
    ensures stored.Some? ==> forall alias :: alias in crosswalk ==> HashConverted(crosswalk[alias], stored.value[alias])
  {
    crosswalk := map[];
    if stored.None? {
      return;
    }
    var s := stored.value;
    var aliases := s.Keys;
    while aliases != {}
      invariant aliases <= s.Keys
      invariant crosswalk.Keys == s.Keys - aliases
      invariant forall alias :: alias in crosswalk ==> HashConverted(crosswalk[alias], s[alias])
      decreases aliases
    {
      var alias :| alias in aliases;
      var hash: CrosswalkFieldHash := map[];
      var keys := s[alias].Keys;
      while keys != {}
        invariant keys <= s[alias].Keys
        invariant hash.Keys == s[alias].Keys - keys
        invariant forall f :: f in hash ==> hash[f] == CheckCrosswalkFields(s[alias][f])
        decreases keys
      {
        var f :| f in keys;
        hash := hash[f := CheckCrosswalkFields(s[alias][f])];
        keys := keys - {f};
      }
      crosswalk := crosswalk[alias := hash];
      aliases := aliases - {alias};
    }
  }

  /** The alias's hash after the seeding `_setCrosswalk` and `_setCrosswalkItemExport` do first. */
  function Seeded(crosswalk: Crosswalk, fields: seq<Field>, alias: string, id: string): (hash: CrosswalkFieldHash)
    ensures id in hash
  {
    var existing := if alias in crosswalk then crosswalk[alias] else DefaultHash(fields);
    if id in existing then existing else existing[id := CrosswalkDefaultField()]
  }

  /** The crosswalk after `_setCrosswalk(alias, field, nicks)`. */
  function WithNicks(crosswalk: Crosswalk, fields: seq<Field>, alias: string, id: string, nicks: seq<string>): Crosswalk
  {
    var hash := Seeded(crosswalk, fields, alias, id);
    crosswalk[alias := hash[id := hash[id].(nicks := nicks)]]
  }

  /** The crosswalk after `_setCrosswalkItemExport(alias, field, itemExport)`. */
  function WithItemExport(crosswalk: Crosswalk, fields: seq<Field>, alias: string, id: string, itemExport: bool): Crosswalk
  {
    var hash := Seeded(crosswalk, fields, alias, id);
    crosswalk[alias := hash[id := hash[id].(itemExport := itemExport)]]
  }

  /** The crosswalk after `_removeCrosswalkField(alias, field)`. */
  function WithoutField(crosswalk: Crosswalk, alias: string, id: string): Crosswalk
  {
    if alias !in crosswalk then crosswalk else crosswalk[alias := crosswalk[alias] - {id}]
  }

  /** The preference fields whose ids the new list no longer has, in order. */
  function RemovedFields(previous: seq<Field>, next: seq<Field>): (r: seq<Field>)
    ensures forall f :: f in r <==> f in previous && f.id !in FieldIds(next)
    decreases |previous|
  {
    if |previous| == 0 then []
    else
      var init := previous[..|previous| - 1];
      var f := previous[|previous| - 1];
      assert previous == init + [f];
      RemovedFields(init, next) + (if f.id in FieldIds(next) then [] else [f])
  }

  /** A field id dropped from every alias. */
  function DropField(crosswalk: Crosswalk, id: string): Crosswalk
  {
    map alias | alias in crosswalk :: crosswalk[alias] - {id}
  }

  function DropFields(crosswalk: Crosswalk, removed: seq<Field>): Crosswalk
    decreases |removed|
  {
    if |removed| == 0 then crosswalk
    else DropField(DropFields(crosswalk, removed[..|removed| - 1]), removed[|removed| - 1].id)
  }

  /**
   * After `_setCrosswalk(alias, field, nicks)`: the field's nicks are
   * `nicks`, its item-export flag is what it was (false for a new entry),
   * no other alias changes, other fields of an existing alias are kept, and
   * a new alias gets the default entry for every preference field.
   */
  lemma SetCrosswalkFacts(crosswalk: Crosswalk, fields: seq<Field>, alias: string, id: string, nicks: seq<string>)
    ensures WithNicks(crosswalk, fields, alias, id, nicks).Keys == crosswalk.Keys + {alias}
    ensures WithNicks(crosswalk, fields, alias, id, nicks)[alias][id] ==
      CrosswalkField(nicks, alias in crosswalk && id in crosswalk[alias] && crosswalk[alias][id].itemExport)
    ensures forall a :: a in crosswalk && a != alias ==> WithNicks(crosswalk, fields, alias, id, nicks)[a] == crosswalk[a]
    ensures alias in crosswalk ==> WithNicks(crosswalk, fields, alias, id, nicks)[alias].Keys == crosswalk[alias].Keys + {id}
    ensures alias in crosswalk ==> forall k :: k in crosswalk[alias] && k != id ==>
      WithNicks(crosswalk, fields, alias, id, nicks)[alias][k] == crosswalk[alias][k]
    ensures alias !in crosswalk ==> WithNicks(crosswalk, fields, alias, id, nicks)[alias].Keys == FieldIds(fields) + {id}
    ensures alias !in crosswalk ==> forall k :: k in FieldIds(fields) && k != id ==>
      WithNicks(crosswalk, fields, alias, id, nicks)[alias][k] == CrosswalkDefaultField()
  {
  }

  /**
   * After `_setCrosswalkItemExport(alias, field, itemExport)`: only the
   * field's flag is set; its nicks are what they were (one empty nick for a
   * new entry), and everything else is as after the seeding.
   */
  lemma SetItemExportFacts(crosswalk: Crosswalk, fields: seq<Field>, alias: string, id: string, itemExport: bool)
    ensures WithItemExport(crosswalk, fields, alias, id, itemExport).Keys == crosswalk.Keys + {alias}
    ensures WithItemExport(crosswalk, fields, alias, id, itemExport)[alias][id] ==
      CrosswalkField(if alias in crosswalk && id in crosswalk[alias] then crosswalk[alias][id].nicks else [""], itemExport)
    ensures forall a :: a in crosswalk && a != alias ==> WithItemExport(crosswalk, fields, alias, id, itemExport)[a] == crosswalk[a]
    ensures alias in crosswalk ==> WithItemExport(crosswalk, fields, alias, id, itemExport)[alias].Keys == crosswalk[alias].Keys + {id}
    ensures alias in crosswalk ==> forall k :: k in crosswalk[alias] && k != id ==>
      WithItemExport(crosswalk, fields, alias, id, itemExport)[alias][k] == crosswalk[alias][k]
    ensures alias !in crosswalk ==> forall k :: k in FieldIds(fields) && k != id ==>
      WithItemExport(crosswalk, fields, alias, id, itemExport)[alias][k] == CrosswalkDefaultField()
  {
  }

  /** Setting the nicks and then the flag of a field sets both and leaves the rest as either call would. */
  lemma NicksThenItemExport(crosswalk: Crosswalk, fields: seq<Field>, alias: string, id: string, nicks: seq<string>, itemExport: bool)
    ensures WithItemExport(WithNicks(crosswalk, fields, alias, id, nicks), fields, alias, id, itemExport)[alias][id] == CrosswalkField(nicks, itemExport)
    ensures WithItemExport(WithNicks(crosswalk, fields, alias, id, nicks), fields, alias, id, itemExport) ==
      WithNicks(WithItemExport(crosswalk, fields, alias, id, itemExport), fields, alias, id, nicks)
  {
    var a := WithItemExport(WithNicks(crosswalk, fields, alias, id, nicks), fields, alias, id, itemExport);
    var b := WithNicks(WithItemExport(crosswalk, fields, alias, id, itemExport), fields, alias, id, nicks);
    assert a[alias] == b[alias];
  }

  /**
   * `_removeCrosswalkField` changes nothing for an absent alias; otherwise
   * it deletes exactly that field key of that alias.
   */
  lemma RemoveFieldFacts(crosswalk: Crosswalk, alias: string, id: string)
    ensures alias !in crosswalk ==> WithoutField(crosswalk, alias, id) == crosswalk
    ensures WithoutField(crosswalk, alias, id).Keys == crosswalk.Keys
    ensures alias in crosswalk ==> WithoutField(crosswalk, alias, id)[alias].Keys == crosswalk[alias].Keys - {id}
    ensures alias in crosswalk ==> forall k :: k in WithoutField(crosswalk, alias, id)[alias] ==>
      WithoutField(crosswalk, alias, id)[alias][k] == crosswalk[alias][k]
    ensures forall a :: a in crosswalk && a != alias ==> WithoutField(crosswalk, alias, id)[a] == crosswalk[a]
  {
  }

  /**
   * After `_setPreferencesFields`: the aliases are the same, each has lost
   * exactly the ids of the dropped fields, and every entry of a kept field
   * is untouched.
   */
  lemma {:induction false} DropFieldsFacts(crosswalk: Crosswalk, removed: seq<Field>)
    ensures DropFields(crosswalk, removed).Keys == crosswalk.Keys
    ensures forall a :: a in crosswalk ==> DropFields(crosswalk, removed)[a].Keys == crosswalk[a].Keys - FieldIds(removed)
    ensures forall a, k :: a in crosswalk && k in DropFields(crosswalk, removed)[a] ==>
      DropFields(crosswalk, removed)[a][k] == crosswalk[a][k]
    decreases |removed|
  {
    if |removed| > 0 {
      var init := removed[..|removed| - 1];
      DropFieldsFacts(crosswalk, init);
      FieldIdsSnoc(init, removed[|removed| - 1]);
      assert removed == init + [removed[|removed| - 1]];
    }
  }

  /** A field list that keeps every id drops nothing. */
  lemma KeptFieldsDropNothing(previous: seq<Field>, next: seq<Field>, crosswalk: Crosswalk)
    requires FieldIds(previous) <= FieldIds(next)
    ensures DropFields(crosswalk, RemovedFields(previous, next)) == crosswalk
  {
    NothingRemoved(previous, next);
  }

  lemma {:induction false} NothingRemoved(previous: seq<Field>, next: seq<Field>)
    requires FieldIds(previous) <= FieldIds(next)
    ensures RemovedFields(previous, next) == []
    decreases |previous|
  {
    if |previous| > 0 {
      var init := previous[..|previous| - 1];
      FieldIdsSnoc(init, previous[|previous| - 1]);
      assert previous == init + [previous[|previous| - 1]];
      NothingRemoved(init, next);
    }
  }

  /** An empty port becomes 443 with SSL and 80 without; any other is kept. */
  function DefaultPort(port: string, ssl: bool): (p: string)
    ensures port != "" ==> p == port
    ensures port == "" ==> p == (if ssl then "443" else "80")
    ensures p != ""
  {
    if port == "" then (if ssl then "443" else "80") else port
  }

  /** `errors.filter(e => e !== error)`. */
  function Without(errors: seq<AppError>, error: AppError): seq<AppError>
    decreases |errors|
  {
    if |errors| == 0 then []
    else Without(errors[..|errors| - 1], error) + (if errors[|errors| - 1] == error then [] else [errors[|errors| - 1]])
  }

  /** Clearing removes exactly the given error: every other element stays. */
  lemma {:induction false} WithoutMembers(errors: seq<AppError>, error: AppError)
    ensures error !in Without(errors, error)
    ensures forall e :: e in errors && e != error ==> e in Without(errors, error)
    ensures forall e :: e in Without(errors, error) ==> e in errors
    decreases |errors|
  {
    if |errors| > 0 {
      var init := errors[..|errors| - 1];
      WithoutMembers(init, error);
      assert errors == init + [errors[|errors| - 1]];
    }
  }

  /** Clearing keeps the order of what remains: it distributes over concatenation. */
  lemma {:induction false} WithoutAppend(a: seq<AppError>, b: seq<AppError>, error: AppError)
    ensures Without(a + b, error) == Without(a, error) + Without(b, error)
    decreases |b|
  {
    if |b| == 0 {
      assert a + b == a;
    } else {
      WithoutAppend(a, b[..|b| - 1], error);
      assert (a + b)[..|a + b| - 1] == a + b[..|b| - 1];
    }
  }

  /** A list without the error is left as it is. */
  lemma {:induction false} WithoutAbsent(errors: seq<AppError>, error: AppError)
    requires error !in errors
    ensures Without(errors, error) == errors
    decreases |errors|
  {
    if |errors| > 0 {
      WithoutAbsent(errors[..|errors| - 1], error);
      assert errors == errors[..|errors| - 1] + [errors[|errors| - 1]];
    }
  }

  /** Pushing an error and then clearing it leaves the earlier errors without it. */
  lemma PushThenClear(errors: seq<AppError>, error: AppError)
    ensures Without(errors + [error], error) == Without(errors, error)
  {
    assert (errors + [error])[..|errors|] == errors;
  }

  class AppStore {
    var crosswalk: Crosswalk
    var fields: seq<Field>
    var cdm: CdmServer
    var contentdmServer: Option<CdmServer>
    var selectedAlias: string
    var collectionFieldInfo: Option<seq<FieldInfo>>
    var errors: seq<AppError>

    /** The store's defaults: no crosswalk, no fields, no server, no errors. */
    constructor ()
      ensures crosswalk == map[] && fields == [] && cdm == CdmServer("", None, false)
      ensures contentdmServer == None && selectedAlias == "" && collectionFieldInfo == None && errors == []
    {
      crosswalk := map[];
      fields := [];
      cdm := CdmServer("", None, false);
      contentdmServer := None;
      selectedAlias := "";
      collectionFieldInfo := None;
      errors := [];
    }

    /** `_crosswalkDefault`: the default entry for every preference field. */
    method CrosswalkDefault() returns (hash: CrosswalkFieldHash)
      ensures hash == DefaultHash(fields)
    {
      hash := map[];
      var i := 0;
      while i < |fields|
        invariant 0 <= i <= |fields|
        invariant hash == DefaultHash(fields[..i])
      {
        assert fields[..i + 1] == fields[..i] + [fields[i]];
        DefaultHashSnoc(fields[..i], fields[i]);
        hash := hash[fields[i].id := CrosswalkDefaultField()];
        i := i + 1;
      }
      assert fields[..i] == fields;
    }

    /** `_setCrosswalk`: seeds a missing alias and field with defaults, then sets the field's nicks. */
    method SetCrosswalk(alias: string, field: Field, nicks: seq<string>)
      modifies this
      ensures crosswalk == WithNicks(old(crosswalk), fields, alias, field.id, nicks)
      ensures fields == old(fields) && cdm == old(cdm) && contentdmServer == old(contentdmServer)
      ensures selectedAlias == old(selectedAlias) && collectionFieldInfo == old(collectionFieldInfo) && errors == old(errors)
    {
      if alias !in crosswalk {
        var hash := CrosswalkDefault();
        crosswalk := crosswalk[alias := hash];
      }
      if field.id !in crosswalk[alias] {
        crosswalk := crosswalk[alias := crosswalk[alias][field.id := CrosswalkDefaultField()]];
      }
      crosswalk := crosswalk[alias := crosswalk[alias][field.id := crosswalk[alias][field.id].(nicks := nicks)]];
    }

    /** `_setCrosswalkItemExport`: seeds as `_setCrosswalk` does, then sets the field's item-export flag. */
    method SetCrosswalkItemExport(alias: string, field: Field, itemExport: bool)
      modifies this
      ensures crosswalk == WithItemExport(old(crosswalk), fields, alias, field.id, itemExport)
      ensures fields == old(fields) && cdm == old(cdm) && contentdmServer == old(contentdmServer)
      ensures selectedAlias == old(selectedAlias) && collectionFieldInfo == old(collectionFieldInfo) && errors == old(errors)
    {
      if alias !in crosswalk {
        var hash := CrosswalkDefault();
        crosswalk := crosswalk[alias := hash];
      }
      if field.id !in crosswalk[alias] {
        crosswalk := crosswalk[alias := crosswalk[alias][field.id := CrosswalkDefaultField()]];
      }
      crosswalk := crosswalk[alias := crosswalk[alias][field.id := crosswalk[alias][field.id].(itemExport := itemExport)]];
    }

    /** `_removeCrosswalkField`: deletes the field key of an existing alias. */
    method RemoveCrosswalkField(alias: string, field: Field)
      modifies this
      ensures crosswalk == WithoutField(old(crosswalk), alias, field.id)
      ensures fields == old(fields) && cdm == old(cdm) && contentdmServer == old(contentdmServer)
      ensures selectedAlias == old(selectedAlias) && collectionFieldInfo == old(collectionFieldInfo) && errors == old(errors)
    {
      if alias !in crosswalk {
        return;
      }
      crosswalk := crosswalk[alias := crosswalk[alias] - {field.id}];
    }

    /** The inner loop of `_setPreferencesFields`: one field removed from every alias. */
    method RemoveFromEveryAlias(field: Field)
      modifies this
      ensures crosswalk == DropField(old(crosswalk), field.id)
      ensures fields == old(fields) && cdm == old(cdm) && contentdmServer == old(contentdmServer)
      ensures selectedAlias == old(selectedAlias) && collectionFieldInfo == old(collectionFieldInfo) && errors == old(errors)
    {
      var aliases := crosswalk.Keys;
      while aliases != {}
        invariant aliases <= old(crosswalk).Keys
        invariant crosswalk.Keys == old(crosswalk).Keys
        invariant forall alias :: alias in crosswalk ==>
          crosswalk[alias] == (if alias in aliases then old(crosswalk)[alias] else old(crosswalk)[alias] - {field.id})
        invariant fields == old(fields) && cdm == old(cdm) && contentdmServer == old(contentdmServer)
        invariant selectedAlias == old(selectedAlias) && collectionFieldInfo == old(collectionFieldInfo) && errors == old(errors)
        decreases aliases
      {
        var alias :| alias in aliases;
        RemoveCrosswalkField(alias, field);
        aliases := aliases - {alias};
      }
    }

    /**
     * `_setPreferencesFields`: every field id the new list drops is removed
     * from every alias, then the new list becomes the preference fields.
     */
    method SetPreferencesFields(next: seq<Field>)
      modifies this
      ensures crosswalk == DropFields(old(crosswalk), RemovedFields(old(fields), next))
      ensures fields == next
      ensures cdm == old(cdm) && contentdmServer == old(contentdmServer)
      ensures selectedAlias == old(selectedAlias) && collectionFieldInfo == old(collectionFieldInfo) && errors == old(errors)
    {
      var removed := RemovedFields(fields, next);
      var i := 0;
      while i < |removed|
        invariant 0 <= i <= |removed|
        invariant crosswalk == DropFields(old(crosswalk), removed[..i])
        invariant fields == old(fields) && cdm == old(cdm) && contentdmServer == old(contentdmServer)
        invariant selectedAlias == old(selectedAlias) && collectionFieldInfo == old(collectionFieldInfo) && errors == old(errors)
      {
        RemoveFromEveryAlias(removed[i]);
        assert removed[..i + 1][..i] == removed[..i];
        i := i + 1;
      }
      assert removed[..i] == removed;
      fields := next;
    }

    /**
     * `_setPreferencesContentDm`: stores host, port (defaulted) and SSL,
     * makes them the ContentDM server, and forgets the selected collection
     * and its field info.
     */
    method SetPreferencesContentDm(hostname: string, port: string, ssl: bool)
      modifies this
      ensures cdm == CdmServer(hostname, Some(DefaultPort(port, ssl)), ssl)
      ensures contentdmServer == Some(cdm)
      ensures collectionFieldInfo == None && selectedAlias == ""
      ensures crosswalk == old(crosswalk) && fields == old(fields) && errors == old(errors)
    {
      var p := port;
      if p == "" {
        p := if ssl then "443" else "80";
      }
      cdm := CdmServer(hostname, Some(p), ssl);
      collectionFieldInfo := None;
      selectedAlias := "";
      contentdmServer := Some(cdm);
    }

    /** `_pushError`: the error is appended. */
    method PushError(error: AppError)
      modifies this
      ensures errors == old(errors) + [error]
      ensures crosswalk == old(crosswalk) && fields == old(fields) && cdm == old(cdm) && contentdmServer == old(contentdmServer)
      ensures selectedAlias == old(selectedAlias) && collectionFieldInfo == old(collectionFieldInfo)
    {
      errors := errors + [error];
    }

    /** `_clearError`: every occurrence of this very error is removed. */
    method ClearError(error: AppError)
      modifies this
      ensures errors == Without(old(errors), error)
      ensures crosswalk == old(crosswalk) && fields == old(fields) && cdm == old(cdm) && contentdmServer == old(contentdmServer)
      ensures selectedAlias == old(selectedAlias) && collectionFieldInfo == old(collectionFieldInfo)
    {
      errors := Without(errors, error);
    }
  }
}
