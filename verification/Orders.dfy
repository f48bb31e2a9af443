/**
  Orders in which the keys of a map, or the elements of a set, may be gone through.
 */
module Orders {
  function Members(ids: seq<string>): set<string> {
    set id | id in ids
  }

  ghost predicate NoRepeats(ids: seq<string>) {
    forall i, j :: 0 <= i < j < |ids| ==> ids[i] != ids[j]
  }

  // The ids are an order in which a map with these keys may be gone through.
  ghost predicate Enumerates(ids: seq<string>, keys: set<string>) {
    NoRepeats(ids) && forall id :: id in ids <==> id in keys
  }

  lemma OneMore(ids: seq<string>, keys: set<string>, id: string)
    requires Enumerates(ids, keys) && id !in keys
    ensures Enumerates(ids + [id], keys + {id})
  {
    forall i | 0 <= i < |ids| ensures ids[i] != id { assert ids[i] in ids; }
  }

  method AnyOrder(keys: set<string>) returns (ids: seq<string>)
    ensures Enumerates(ids, keys)
  {
    ids := [];
    var todo := keys;
    while todo != {}
      invariant todo <= keys && Enumerates(ids, keys - todo)
      decreases |todo|
    {
      var id :| id in todo;
      OneMore(ids, keys - todo, id);
      assert keys - (todo - {id}) == (keys - todo) + {id};
      ids := ids + [id];
      todo := todo - {id};
    }
    assert keys - {} == keys;
  }
}
