/** The extension-to-media-type map of servor.js (servor.js:12-16), built by a
    left fold over the entries of the type table, and the lookup of its
    `sendFile` (servor.js:96). The table's contents are not part of this model:
    the map is proved right for every table. */
module MimeTable {
  import opened JsObject

  /** One entry of the type table: a media type and the extensions listed under
      it, in the table's order. */
  datatype Entry = Entry(mediaType: string, exts: seq<string>)

  /** One step of the fold, `Object.assign` of one-key objects: every extension
      of the entry is set to its type, overriding what an earlier entry set,
      except `__proto__`, whose assignment goes to the prototype accessor and
      sets no key. */
  function AddAll(all: map<string, string>, mediaType: string, exts: seq<string>): (r: map<string, string>)
    ensures forall e :: e in r <==> e in all || (e in exts && e != Proto)
    ensures forall e :: e in exts && e != Proto ==> r[e] == mediaType
    ensures forall e :: e in all && (e !in exts || e == Proto) ==> r[e] == all[e]
    decreases |exts|
  {
    if exts == [] then all
    else if exts[|exts| - 1] == Proto then AddAll(all, mediaType, exts[..|exts| - 1])
    else AddAll(all, mediaType, exts[..|exts| - 1])[exts[|exts| - 1] := mediaType]
  }

  /** Some entry lists `ext`. */
  predicate Listed(entries: seq<Entry>, ext: string)
  {
    exists i :: 0 <= i < |entries| && ext in entries[i].exts
  }

  /** The reduce of servor.js:12-16, from the empty map. Its keys are exactly the
      listed extensions other than `__proto__`. */
  function Build(entries: seq<Entry>): (m: map<string, string>)
    ensures forall e :: e in m <==> Listed(entries, e) && e != Proto
  {
    if entries == [] then map[]
    else
      var last := entries[|entries| - 1];
      var m := AddAll(Build(entries[..|entries| - 1]), last.mediaType, last.exts);
      assert forall e :: Listed(entries, e) <==> Listed(entries[..|entries| - 1], e) || e in last.exts by {
        forall e | Listed(entries, e)
          ensures Listed(entries[..|entries| - 1], e) || e in last.exts
        {
          var i :| 0 <= i < |entries| && e in entries[i].exts;
          if i < |entries| - 1 {
            assert entries[..|entries| - 1][i] == entries[i];
          }
        }
        forall e | Listed(entries[..|entries| - 1], e)
          ensures Listed(entries, e)
        {
          var i :| 0 <= i < |entries| - 1 && e in entries[..|entries| - 1][i].exts;
          assert entries[..|entries| - 1][i] == entries[i];
        }
      }
      m
  }

  /** An extension maps to the type of the last entry that lists it; a listed
      `__proto__` is no key. */
  lemma {:induction false} LastListingWins(entries: seq<Entry>, i: nat, ext: string)
    requires i < |entries| && ext in entries[i].exts
    requires forall l :: i < l < |entries| ==> ext !in entries[l].exts
    ensures ext == Proto ==> ext !in Build(entries)
    ensures ext != Proto ==> ext in Build(entries) && Build(entries)[ext] == entries[i].mediaType
    decreases |entries|
  {
    var init := entries[..|entries| - 1];
    if i < |entries| - 1 {
      assert init[i] == entries[i];
      forall l | i < l < |init|
        ensures ext !in init[l].exts
      {
        assert init[l] == entries[l];
      }
      LastListingWins(init, i, ext);
    }
  }

  /** An extension listed under one type only maps to that type. */
  lemma ListedOnce(entries: seq<Entry>, i: nat, ext: string)
    requires i < |entries| && ext in entries[i].exts
    requires forall l :: 0 <= l < |entries| && l != i ==> ext !in entries[l].exts
    ensures ext != Proto ==> ext in Build(entries) && Build(entries)[ext] == entries[i].mediaType
  {
    LastListingWins(entries, i, ext);
  }

  /** `mime[ext] || "application/octet-stream"`: an own key with a non-empty
      type gives that type, an own key with the empty type the generic one; with
      no own key, a name `Object.prototype` has gives that member's text, and any
      other extension the generic type. */
  function Lookup(mime: map<string, string>, ext: string): (t: string)
    ensures ext in mime && mime[ext] != "" ==> t == mime[ext]
    ensures ext in mime && mime[ext] == "" ==> t == "application/octet-stream"
    ensures ext !in mime && ext in Inherited ==> t == MemberText(ext)
    ensures ext !in mime && ext !in Inherited ==> t == "application/octet-stream"
  {
    if ext in mime then (if mime[ext] != "" then mime[ext] else "application/octet-stream")
    else if ext in Inherited then MemberText(ext)
    else "application/octet-stream"
  }

  /** A lower-cased extension that `Object.prototype` has and the table does not
      list gets a header no media type looks like: the lookup finds the
      inherited member. */
  lemma InheritedExtensions(entries: seq<Entry>)
    requires !Listed(entries, "constructor")
    ensures Lookup(Build(entries), "constructor") == "function Object() { [native code] }"
    ensures Lookup(Build(entries), Proto) == "[object Object]"
  {
    assert "constructor" in Inherited && Proto in Inherited;
  }
}
