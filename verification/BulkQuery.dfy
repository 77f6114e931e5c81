/** FuseWrapper::GetObjectPropertyList of fuse/fuse.cpp: one property of many objects from one
    reply, with individual queries for the objects the reply forgot. */
module BulkQuery {
  import opened Bytes
  import opened Results

  /** One entry of a property list reply, already parsed. */
  datatype Item<V> = Item(id: u32, property: u16, value: V)

  /** The first entry that answers for an object. */
  function FirstMatch<V>(reply: seq<Item<V>>, property: u16, id: u32): Option<V> {
    if reply == [] then None
    else if reply[0].id == id && reply[0].property == property then Some(reply[0].value)
    else FirstMatch(reply[1..], property, id)
  }

  /** Entries of other objects and of other properties do not. */
  lemma {:induction false} FirstMatchMeaning<V>(reply: seq<Item<V>>, property: u16, id: u32)
    ensures FirstMatch(reply, property, id).Some? <==> exists i | 0 <= i < |reply| :: Answers(reply[i], property, id)
    ensures forall i | 0 <= i < |reply| && Answers(reply[i], property, id) ::
      (forall j | 0 <= j < i :: !Answers(reply[j], property, id)) ==> FirstMatch(reply, property, id) == Some(reply[i].value)
  {
    if reply != [] {
      var rest := reply[1..];
      FirstMatchMeaning(rest, property, id);
      assert forall i | 0 < i < |reply| :: reply[i] == rest[i - 1];
      assert forall i | 0 <= i < |rest| :: rest[i] == reply[i + 1];
      forall i | 0 <= i < |reply| && Answers(reply[i], property, id) && forall j | 0 <= j < i :: !Answers(reply[j], property, id)
        ensures FirstMatch(reply, property, id) == Some(reply[i].value)
      {
        if i > 0 {
          assert forall j | 0 <= j < i - 1 :: rest[j] == reply[j + 1];
          assert rest[i - 1] == reply[i];
        }
      }
    }
  }

  predicate Answers<V>(item: Item<V>, property: u16, id: u32) {
    item.id == id && item.property == property
  }

  /** The values passed to the callback for one object. */
  function ValuesFor<V>(calls: seq<(u32, V)>, id: u32): seq<V> {
    if calls == [] then []
    else (if calls[0].0 == id then [calls[0].1] else []) + ValuesFor(calls[1..], id)
  }

  /** What one requested object gets: its first matching entry, else the individual answer. */
  function Expected<V>(reply: seq<Item<V>>, property: u16, single: u32 -> Option<V>, id: u32): seq<V> {
    match FirstMatch(reply, property, id)
    case Some(v) => [v]
    case None =>
      match single(id)
      case Some(v) => [v]
      case None => []
  }

  lemma {:induction false} ValuesForSnoc<V>(calls: seq<(u32, V)>, last: (u32, V), id: u32)
    ensures ValuesFor(calls + [last], id) == ValuesFor(calls, id) + if last.0 == id then [last.1] else []
  {
    if calls == [] {
      assert ValuesFor([last], id) == (if last.0 == id then [last.1] else []) + ValuesFor([], id);
    } else {
      ValuesForSnoc(calls[1..], last, id);
      assert (calls + [last])[1..] == calls[1..] + [last];
      Associative(if calls[0].0 == id then [calls[0].1] else [], ValuesFor(calls[1..], id),
                  if last.0 == id then [last.1] else []);
    }
  }

  /** Exactly once: whatever duplicates, foreign objects or foreign properties the reply holds,
      every requested object gets one value, unless even its individual query fails, and no
      other object gets any. The calls are returned in order. */
  method Query<V>(requested: set<u32>, reply: seq<Item<V>>, property: u16, single: u32 -> Option<V>)
    returns (calls: seq<(u32, V)>)
    ensures forall id :: ValuesFor(calls, id)
                         == if id in requested then Expected(reply, property, single, id) else []
  {
    var left := requested;
    calls := [];
    var i := 0;
    while i < |reply|
      invariant 0 <= i <= |reply| && left <= requested
      invariant forall id | id in left ::
        ValuesFor(calls, id) == [] && FirstMatch(reply[i..], property, id) == FirstMatch(reply, property, id)
      invariant forall id | id !in left ::
        ValuesFor(calls, id) == if id in requested then Expected(reply, property, single, id) else []
    {
      var item := reply[i];
      ghost var before := calls;
      assert reply[i..][0] == item && reply[i..][1..] == reply[i + 1..];
      if item.property == property && item.id in left {
        left := left - {item.id};
        calls := calls + [(item.id, item.value)];
        forall id
          ensures ValuesFor(calls, id) == ValuesFor(before, id) + if item.id == id then [item.value] else []
        {
          ValuesForSnoc(before, (item.id, item.value), id);
        }
      }
      i := i + 1;
    }
    while left != {}
      invariant left <= requested
      invariant forall id | id in left ::
        ValuesFor(calls, id) == [] && FirstMatch(reply, property, id) == None
      invariant forall id | id !in left ::
        ValuesFor(calls, id) == if id in requested then Expected(reply, property, single, id) else []
      decreases left
    {
      var id :| id in left;
      left := left - {id};
      match single(id) {
        case None =>
        case Some(value) =>
          ghost var before := calls;
          calls := calls + [(id, value)];
          forall other
            ensures ValuesFor(calls, other) == ValuesFor(before, other) + if other == id then [value] else []
          {
            ValuesForSnoc(before, (id, value), other);
          }
      }
    }
  }
}
