/** `PATCH /item/update/:item_id` and `POST /item/add`: the request body loses the columns a
    client may not write, and what remains becomes an UPDATE or an INSERT whose column names are
    the body's own property names. */
module ItemColumns {
  import opened JsText
  import opened JsValues
  import opened Http
  import opened Sql

  /** The columns the two routes never write, spelt as the routes spell them. */
  const SensitiveColumns: seq<string> := ["item_id", "item_created_at", "item_udpated_at"]

  /** `sensitiveColumns.includes(key)`: an exact comparison, case included. */
  predicate Sensitive(key: string)
  {
    key in SensitiveColumns
  }

  /** The properties that are not sensitive, in their order. */
  function Retained(props: seq<(string, Json)>): (kept: seq<(string, Json)>)
    ensures |kept| <= |props|
    ensures forall e :: e in kept <==> e in props && !Sensitive(e.0)
  {
    if props == [] then []
    else (if Sensitive(props[0].0) then [] else [props[0]]) + Retained(props[1..])
  }

  /** `Object.keys(body).filter(key => !sensitiveColumns.includes(key))` */
  function NonSensitive(keys: seq<string>): seq<string>
  {
    if keys == [] then []
    else (if Sensitive(keys[0]) then [] else [keys[0]]) + NonSensitive(keys[1..])
  }

  lemma {:induction false} KeysRetained(props: seq<(string, Json)>)
    ensures Keys(Retained(props)) == NonSensitive(Keys(props))
  {
    if props != [] {
      var head := if Sensitive(props[0].0) then [] else [props[0]];
      var rest := props[1..];
      assert Retained(props) == head + Retained(rest);
      KeysAppend(head, Retained(rest));
      KeysRetained(rest);
      var keys := Keys(props);
      assert keys[0] == props[0].0 && keys[1..] == Keys(rest);
      assert Keys(head) == if Sensitive(keys[0]) then [] else [keys[0]];
    }
  }

  /** Dropping properties keeps the names distinct. */
  lemma {:induction false} RetainedDistinct(props: seq<(string, Json)>)
    requires DistinctKeys(props)
    ensures DistinctKeys(Retained(props))
  {
    if props != [] {
      RetainedDistinct(props[1..]);
      var rest := Retained(props[1..]);
      if !Sensitive(props[0].0) {
        forall j | 0 <= j < |rest| ensures rest[j].0 != props[0].0 {
          assert rest[j] in props[1..];
        }
      }
    }
  }

  /** The filter removes exactly the properties whose names are sensitive, and keeps the others
      in their order: filtering a concatenation is concatenating the filtered parts. */
  lemma {:induction false} RetainedAppend(a: seq<(string, Json)>, b: seq<(string, Json)>)
    ensures Retained(a + b) == Retained(a) + Retained(b)
  {
    if a == [] {
      assert a + b == b;
    } else {
      assert (a + b)[1..] == a[1..] + b;
      RetainedAppend(a[1..], b);
    }
  }

  /** The object the `reduce` builds: the retained properties, less a `__proto__` one, which
      goes to the prototype setter instead. */
  function Written(props: seq<(string, Json)>): (w: seq<(string, Json)>)
    ensures forall e :: e in w <==> e in props && !Sensitive(e.0) && e.0 != ProtoKey
  {
    Without(Retained(props), ProtoKey)
  }

  /** Nothing is retained exactly when every property is sensitive, and nothing is written
      exactly when every property is sensitive or named `__proto__`. */
  lemma RetainedEmpty(props: seq<(string, Json)>)
    ensures Retained(props) == [] <==> forall i :: 0 <= i < |props| ==> Sensitive(props[i].0)
    ensures Written(props) == [] <==>
              forall i :: 0 <= i < |props| ==> Sensitive(props[i].0) || props[i].0 == ProtoKey
  {
    assert Retained(props) != [] ==> Retained(props)[0] in Retained(props);
    assert Written(props) != [] ==> Written(props)[0] in Written(props);
    assert forall i :: 0 <= i < |props| ==> props[i] in props;
  }

  /** The name `__proto__` is not one of the sensitive columns. */
  lemma ProtoNotSensitive()
    ensures !Sensitive(ProtoKey)
  {
    assert |ProtoKey| == 9;
    assert |SensitiveColumns[0]| == 7 && |SensitiveColumns[1]| == 15 && |SensitiveColumns[2]| == 15;
  }

  /** `JSON.parse` makes a lone member an own property, `__proto__` included. */
  lemma LoneMember(key: string, v: Json)
    ensures OwnProperties(JObject([(key, v)])) == [(key, v)]
  {
    var m := [(key, v)];
    assert m[..|m| - 1] == [] && m[|m| - 1] == (key, v);
    assert Properties(m) == Assign(Properties([]), key, v);
    assert key !in Keys([]);
    AssignNew([], key, v);
    assert [] + m == m;
  }

  /** A body whose one property is `__proto__` writes nothing. */
  lemma ProtoOnly(v: Json)
    ensures Written(OwnProperties(JObject([(ProtoKey, v)]))) == []
  {
    ProtoNotSensitive();
    LoneMember(ProtoKey, v);
    RetainedEmpty([(ProtoKey, v)]);
  }

  /** The comparison is exact: other spellings of the listed names, `item_updated_at` among
      them, pass the filter. */
  lemma OtherSpellingsKept(v: Json, w: Json)
    ensures Retained([("ITEM_ID", v), ("item_updated_at", w), ("item_udpated_at", w)]) ==
            [("ITEM_ID", v), ("item_updated_at", w)]
  {
    assert !Sensitive("ITEM_ID") by {
      assert "ITEM_ID" != "item_id";
    }
    assert !Sensitive("item_updated_at") by {
      assert "item_updated_at"[6] != "item_udpated_at"[6];
    }
    assert Sensitive("item_udpated_at");
    var props := [("ITEM_ID", v), ("item_updated_at", w), ("item_udpated_at", w)];
    assert Retained(props[2..]) == [] by {
      assert props[2..][1..] == [];
    }
    assert props[1..][1..] == props[2..];
    assert Retained(props[1..]) == [props[1]];
  }

  /** A kept property is found in the body under its name, with its own value. */
  lemma KeptFound(props: seq<(string, Json)>, i: nat)
    requires DistinctKeys(props) && i < |Retained(props)|
    ensures Lookup(props, Retained(props)[i].0) == Some(Retained(props)[i].1)
  {
    var e := Retained(props)[i];
    assert e in Retained(props);
    var j :| 0 <= j < |props| && props[j] == e;
    LookupDistinct(props, j);
  }

  /** In an object, putting the next property into the ones before it appends it, unless it
      is `__proto__`. */
  lemma PutNext(kept: seq<(string, Json)>, i: nat)
    requires DistinctKeys(kept) && i < |kept|
    ensures DistinctKeys(Without(kept[..i], ProtoKey))
    ensures Put(Without(kept[..i], ProtoKey), kept[i].0, kept[i].1) == Without(kept[..i + 1], ProtoKey)
  {
    var prefix := kept[..i];
    assert kept[..i + 1][..i] == prefix && kept[..i + 1][i] == kept[i];
    assert DistinctKeys(prefix) && kept[i].0 !in Keys(prefix) by {
      forall k | 0 <= k < i ensures Keys(prefix)[k] != kept[i].0 {
        assert prefix[k] == kept[k];
      }
    }
    var w := Without(prefix, ProtoKey);
    if kept[i].0 != ProtoKey {
      assert kept[i].0 !in Keys(w) by {
        forall k | 0 <= k < |w| ensures Keys(w)[k] != kept[i].0 {
          assert w[k] in prefix;
        }
      }
      AssignNew(w, kept[i].0, kept[i].1);
    }
  }

  /** One step of the `reduce`: `body[key]` is the kept property's own value, and writing it to
      the new object appends it, or, for `__proto__`, adds nothing. */
  lemma ReduceStep(props: seq<(string, Json)>, i: nat)
    requires DistinctKeys(props) && DistinctKeys(Retained(props)) && i < |Retained(props)|
    ensures var kept := Retained(props);
            Lookup(props, kept[i].0) == Some(kept[i].1) &&
            DistinctKeys(Without(kept[..i], ProtoKey)) &&
            Put(Without(kept[..i], ProtoKey), kept[i].0, kept[i].1) == Without(kept[..i + 1], ProtoKey)
  {
    KeptFound(props, i);
    PutNext(Retained(props), i);
  }

  /** The `filter` and `reduce` of the two routes: the kept names, then `obj[key] = body[key]`
      for each into a new object. */
  method FilterColumns(body: Json) returns (kept: seq<(string, Json)>)
    ensures kept == Written(OwnProperties(body))
  {
    var props := OwnProperties(body);
    var keys := NonSensitive(Keys(props));
    ghost var target := Retained(props);
    assert keys == Keys(target) && DistinctKeys(target) by {
      KeysRetained(props);
      RetainedDistinct(props);
    }
    kept := [];
    for i := 0 to |keys|
      invariant kept == Without(target[..i], ProtoKey)
    {
      ReduceStep(props, i);
      assert keys[i] == target[i].0;
      var value := Lookup(props, keys[i]);
      assert value == Some(target[i].1);
      kept := Put(kept, keys[i], value.value);
    }
    assert target[..|keys|] == target;
  }

  const NoFieldsMessage := "No valid fields provided for update"

  /** Each value as a query parameter. */
  function Params(values: seq<Json>): (params: seq<Option<Json>>)
    ensures |params| == |values| && forall i :: 0 <= i < |values| ==> params[i] == Some(values[i])
  {
    seq(|values|, i requires 0 <= i < |values| => Some(values[i]))
  }

  /** `key = ?` for each name. */
  function SetClauses(keys: seq<string>): (clauses: seq<string>)
    ensures |clauses| == |keys| && forall i :: 0 <= i < |keys| ==> clauses[i] == keys[i] + " = ?"
  {
    seq(|keys|, i requires 0 <= i < |keys| => keys[i] + " = ?")
  }

  /** The UPDATE of the update route: the kept names as `SET` clauses, their values in order,
      then the item id for the `WHERE`. */
  function UpdateQuery(kept: seq<(string, Json)>, itemId: string): Query
  {
    Query("UPDATE fs_items SET " + Join(SetClauses(Keys(kept)), ", ") + " WHERE item_id = ?",
          Params(Values(kept)) + [Some(JString(itemId))])
  }

  /** The INSERT of the add route: the kept names as columns, one `?` each, their values. */
  function InsertQuery(kept: seq<(string, Json)>): Query
  {
    Query("INSERT INTO fs_items (" + Join(Keys(kept), ", ") + ") VALUES (" +
          Join(seq(|kept|, _ => "?"), ", ") + ")",
          Params(Values(kept)))
  }

  lemma MarksOfClause(key: string)
    ensures Marks(key + " = ?") == Marks(key) + 1
  {
    assert key + " = ?" == key + " = " + "?";
    NoMarks(" = ");
    MarksOfConcat(key, " = ");
    MarksOfConcat(key + " = ", "?");
  }

  lemma {:induction false} MarksOfClauses(keys: seq<string>)
    ensures MarksIn(SetClauses(keys)) == MarksIn(keys) + |keys|
  {
    if keys != [] {
      assert SetClauses(keys)[1..] == SetClauses(keys[1..]);
      MarksOfClauses(keys[1..]);
      MarksOfClause(keys[0]);
    }
  }

  lemma {:induction false} MarksOfPlaceholders(n: nat)
    ensures MarksIn(seq(n, _ => "?")) == n
  {
    if n > 0 {
      assert seq(n, _ => "?")[1..] == seq(n - 1, _ => "?");
      MarksOfPlaceholders(n - 1);
    }
  }

  lemma UpdateHeadMarks()
    ensures Marks("UPDATE fs_items SET ") == 0
  {
    NoMarks("UPDATE fs_items SET ");
  }

  lemma WhereMark()
    ensures Marks(" WHERE item_id = ?") == 1
  {
    assert " WHERE item_id = ?" == " WHERE item_id = " + "?";
    NoMarks(" WHERE item_id = ");
    MarksOfConcat(" WHERE item_id = ", "?");
  }

  lemma InsertHeadMarks()
    ensures Marks("INSERT INTO fs_items (") == 0
  {
    NoMarks("INSERT INTO fs_items (");
  }

  lemma ValuesMarks()
    ensures Marks(") VALUES (") == 0 && Marks(")") == 0
  {
    NoMarks(") VALUES (");
    NoMarks(")");
  }

  /** The `SET` list holds one `?` per clause plus any in the names. */
  lemma SetListMarks(keys: seq<string>)
    requires keys != []
    ensures Marks(Join(SetClauses(keys), ", ")) == |keys| + MarksIn(keys)
  {
    MarksOfCommaJoin(SetClauses(keys));
    MarksOfClauses(keys);
  }

  /** The UPDATE text holds one `?` per kept name, one for the item id, and any in the names. */
  lemma UpdateMarks(kept: seq<(string, Json)>, itemId: string)
    requires kept != []
    ensures Marks(UpdateQuery(kept, itemId).sql) == |kept| + 1 + MarksIn(Keys(kept))
  {
    var clauses := Join(SetClauses(Keys(kept)), ", ");
    SetListMarks(Keys(kept));
    UpdateHeadMarks();
    WhereMark();
    MarksOfConcat3("UPDATE fs_items SET ", clauses, " WHERE item_id = ?");
  }

  /** The UPDATE has one `SET` clause per kept property and one parameter per `?`, the item id
      last, unless a property name itself holds a `?`: the names go into the text unescaped. */
  lemma UpdateShape(kept: seq<(string, Json)>, itemId: string)
    requires kept != []
    ensures var q := UpdateQuery(kept, itemId);
            |q.params| == |kept| + 1 && q.params[|kept|] == Some(JString(itemId)) &&
            (forall i :: 0 <= i < |kept| ==> q.params[i] == Some(kept[i].1)) &&
            Marks(q.sql) == |q.params| + MarksIn(Keys(kept))
  {
    UpdateMarks(kept, itemId);
  }

  /** The INSERT text holds one `?` per kept name plus any in the names. */
  lemma InsertMarks(kept: seq<(string, Json)>)
    requires kept != []
    ensures Marks(InsertQuery(kept).sql) == |kept| + MarksIn(Keys(kept))
  {
    var columns := Join(Keys(kept), ", ");
    var marks := Join(seq(|kept|, _ => "?"), ", ");
    assert Marks(columns) == MarksIn(Keys(kept)) by {
      MarksOfCommaJoin(Keys(kept));
    }
    assert Marks(marks) == |kept| by {
      MarksOfCommaJoin(seq(|kept|, _ => "?"));
      MarksOfPlaceholders(|kept|);
    }
    InsertHeadMarks();
    ValuesMarks();
    MarksOfConcat3("INSERT INTO fs_items (", columns, ") VALUES (");
    MarksOfConcat3("INSERT INTO fs_items (" + columns + ") VALUES (", marks, ")");
  }

  /** The INSERT names as many columns as it has `?` placeholders and parameters, the values in
      the order of the names; here too only a `?` inside a name adds to its placeholders. */
  lemma InsertShape(kept: seq<(string, Json)>)
    requires kept != []
    ensures var q := InsertQuery(kept);
            |q.params| == |kept| && (forall i :: 0 <= i < |kept| ==> q.params[i] == Some(kept[i].1)) &&
            Marks(q.sql) == |q.params| + MarksIn(Keys(kept))
  {
    InsertMarks(kept);
  }

  /** The update route up to its query: 400 when no property is left. */
  method UpdateItem(res: Response, itemId: string, body: Json) returns (run: Option<Query>)
    requires res.Untouched()
    modifies res
    ensures var kept := Written(OwnProperties(body));
            (kept == [] ==> run == None && res.Shows(Reply(400, map[], JsonBody(ErrorJson(NoFieldsMessage))))) &&
            (kept != [] ==> run == Some(UpdateQuery(kept, itemId)) && res.Untouched())
  {
    var updates := FilterColumns(body);
    if |updates| == 0 {
      res.Status(400);
      res.Send(JsonBody(ErrorJson(NoFieldsMessage)));
      return None;
    }
    run := Some(UpdateQuery(updates, itemId));
  }

  /** The add route up to its query: 400, with the update route's message, when no property is
      left. */
  method AddItem(res: Response, body: Json) returns (run: Option<Query>)
    requires res.Untouched()
    modifies res
    ensures var kept := Written(OwnProperties(body));
            (kept == [] ==> run == None && res.Shows(Reply(400, map[], JsonBody(ErrorJson(NoFieldsMessage))))) &&
            (kept != [] ==> run == Some(InsertQuery(kept)) && res.Untouched())
  {
    var insert := FilterColumns(body);
    if |insert| == 0 {
      res.Status(400);
      res.Send(JsonBody(ErrorJson(NoFieldsMessage)));
      return None;
    }
    run := Some(InsertQuery(insert));
  }
}
