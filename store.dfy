/**
 * The identity store: one table from ServiceNow number to Jira issue key, kept
 * under a single storage entry that is read, changed and written back whole.
 */
module IdentityStore {
  import opened Js

  /** The key saved for `number`; an empty number is never looked up. */
  function MappedKey(m: map<string, string>, number: string): (r: Option<string>)
    ensures number == "" ==> r == None
    ensures number != "" ==> (r.Some? <==> number in m)
    ensures r.Some? ==> number in m && r.value == m[number]
  {
    if number != "" && number in m then Some(m[number]) else None
  }

  /** The table after saving `key` for `number`: an empty number leaves it as it is. */
  function Saved(m: map<string, string>, number: string, key: string): (m': map<string, string>)
    ensures number == "" ==> m' == m
    ensures number != "" ==> number in m' && m'[number] == key
    ensures forall k :: k != number ==> (k in m' <==> k in m)
    ensures forall k :: k != number && k in m ==> m'[k] == m[k]
  {
    if number == "" then m else m[number := key]
  }

  /** The table without an entry for `number`. */
  function Deleted(m: map<string, string>, number: string): (m': map<string, string>)
    ensures number !in m'
    ensures forall k :: k != number ==> (k in m' <==> k in m)
    ensures forall k :: k != number && k in m ==> m'[k] == m[k]
  {
    m - {number}
  }

  /** After a save under a non-empty number, looking it up gives the saved key, and no other lookup changes. */
  lemma LookupAfterSave(m: map<string, string>, number: string, key: string, other: string)
    requires number != ""
    ensures MappedKey(Saved(m, number, key), number) == Some(key)
    ensures other != number ==> MappedKey(Saved(m, number, key), other) == MappedKey(m, other)
  {
  }

  /** After a delete the number is unmapped, and no other lookup changes. */
  lemma LookupAfterDelete(m: map<string, string>, number: string, other: string)
    ensures MappedKey(Deleted(m, number), number) == None
    ensures other != number ==> MappedKey(Deleted(m, number), other) == MappedKey(m, other)
  {
  }

  /** Deleting a number's entry and then saving a key for it is the same as overwriting the entry. */
  lemma SaveAfterDelete(m: map<string, string>, number: string, key: string)
    requires number != ""
    ensures Saved(Deleted(m, number), number, key) == m[number := key]
  {
    assert Saved(Deleted(m, number), number, key) == (m - {number})[number := key];
  }

  /** The stored table. A fresh store is empty, as when the storage entry is missing. */
  class Store {
    var mapping: map<string, string>

    constructor ()
      ensures mapping == map[]
    {
      mapping := map[];
    }

    /** The key saved for a number, if any. */
    method GetMappedJiraIssueKey(number: string) returns (r: Option<string>)
      ensures r == MappedKey(mapping, number)
      ensures r.Some? ==> number != "" && number in mapping && r.value == mapping[number]
    {
      if number == "" {
        return None;
      }
      r := if number in mapping then Some(mapping[number]) else None;
    }

    /** Saves the key for a non-empty number, replacing any earlier one. */
    method SaveMapping(number: string, key: string)
      modifies this
      ensures mapping == Saved(old(mapping), number, key)
    {
      if number == "" {
        return;
      }
      mapping := mapping[number := key];
    }

    /** Removes the entry for a number, if there is one. */
    method DeleteMapping(number: string)
      modifies this
      ensures mapping == Deleted(old(mapping), number)
    {
      mapping := mapping - {number};
    }
  }
}
