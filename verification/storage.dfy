/**
 * The key-value table the user service talks to: records keyed by `userId`, and
 * the put, update and delete requests the service sends. The storage engine is
 * outside the service; this module states what the service relies on it to do.
 */
module Storage {
  import opened Results
  import opened JsValues

  /** A stored record: attribute name to value. */
  type Item = map<string, JsValue>

  /** The table's key attribute. */
  const KeyAttribute := "userId"

  /** One `path = :placeholder` assignment of a SET update expression. */
  datatype Assignment = Assignment(path: string, placeholder: string)

  function Render(a: Assignment): string {
    a.path + " = " + a.placeholder
  }

  /** `Array.prototype.join`. */
  function Join(parts: seq<string>, sep: string): string {
    if parts == [] then ""
    else if |parts| == 1 then parts[0]
    else parts[0] + sep + Join(parts[1..], sep)
  }

  function Rendered(fragments: seq<Assignment>): seq<string> {
    seq(|fragments|, i requires 0 <= i < |fragments| => Render(fragments[i]))
  }

  /** `"SET " + updateExpression.join(", ")`. */
  function Expression(fragments: seq<Assignment>): string {
    "SET " + Join(Rendered(fragments), ", ")
  }

  /**
   * An update request: the key, the assignments of the SET expression, the
   * `#alias` names (`null` when absent) and the placeholder values.
   */
  datatype UpdateRequest = UpdateRequest(
    key: JsValue,
    fragments: seq<Assignment>,
    names: Option<map<string, string>>,
    values: map<string, JsValue>)

  predicate IsAlias(path: string) {
    |path| > 0 && path[0] == '#'
  }

  /** The attribute a path denotes: an alias is looked up in the names, anything else is itself. */
  function Target(path: string, names: Option<map<string, string>>): Option<string> {
    if !IsAlias(path) then Some(path)
    else if names.Some? && path in names.value then Some(names.value[path])
    else None
  }

  function Placeholders(fragments: seq<Assignment>): set<string> {
    set a | a in fragments :: a.placeholder
  }

  function AliasPaths(fragments: seq<Assignment>): set<string> {
    set a | a in fragments && IsAlias(a.path) :: a.path
  }

  /** Every path denotes an attribute other than the key and every placeholder has a value. */
  predicate Resolvable(fragments: seq<Assignment>, names: Option<map<string, string>>, values: map<string, JsValue>) {
    forall a :: a in fragments ==>
      Target(a.path, names).Some? && Target(a.path, names).value != KeyAttribute && a.placeholder in values
  }

  /** No two assignments set the same attribute. */
  predicate DistinctTargets(fragments: seq<Assignment>, names: Option<map<string, string>>) {
    forall i, j :: 0 <= i < j < |fragments| ==>
      Target(fragments[i].path, names) != Target(fragments[j].path, names)
  }

  /**
   * The requests the engine accepts: at least one assignment, all resolvable,
   * no attribute set twice, no unused value and no unused (or empty) name map.
   */
  predicate WellFormed(req: UpdateRequest) {
    && req.fragments != []
    && Resolvable(req.fragments, req.names, req.values)
    && DistinctTargets(req.fragments, req.names)
    && req.values.Keys == Placeholders(req.fragments)
    && (req.names.Some? ==> req.names.value.Keys == AliasPaths(req.fragments) != {})
  }

  /** The attributes the assignments denote. */
  function TargetSet(fragments: seq<Assignment>, names: Option<map<string, string>>): set<string> {
    set a | a in fragments && Target(a.path, names).Some? :: Target(a.path, names).value
  }

  /**
   * The record after the assignments are carried out one after another (an
   * assignment that cannot be resolved is passed over; the engine refuses
   * requests holding one, see `WellFormed`).
   */
  function Apply(item: Item, fragments: seq<Assignment>, names: Option<map<string, string>>, values: map<string, JsValue>): Item
    decreases |fragments|
  {
    if fragments == [] then item
    else
      var a := fragments[0];
      var t := Target(a.path, names);
      if t.Some? && a.placeholder in values then
        Apply(item[t.value := values[a.placeholder]], fragments[1..], names, values)
      else
        Apply(item, fragments[1..], names, values)
  }

  /**
   * Carrying out distinct assignments sets each target to its value, adds the
   * targets to the record and leaves every other attribute as it was.
   */
  lemma {:induction false} ApplyEffect(item: Item, fragments: seq<Assignment>, names: Option<map<string, string>>, values: map<string, JsValue>)
    requires Resolvable(fragments, names, values)
    requires DistinctTargets(fragments, names)
    ensures Apply(item, fragments, names, values).Keys == item.Keys + TargetSet(fragments, names)
    ensures forall a :: a in fragments ==>
      Apply(item, fragments, names, values)[Target(a.path, names).value] == values[a.placeholder]
    ensures forall k :: k in item && k !in TargetSet(fragments, names) ==>
      Apply(item, fragments, names, values)[k] == item[k]
    decreases |fragments|
  {
    if fragments != [] {
      var a := fragments[0];
      var t := Target(a.path, names).value;
      var rest := fragments[1..];
      var next := item[t := values[a.placeholder]];
      assert DistinctTargets(rest, names) by {
        forall i, j | 0 <= i < j < |rest|
          ensures Target(rest[i].path, names) != Target(rest[j].path, names)
        {
          assert rest[i] == fragments[i + 1] && rest[j] == fragments[j + 1];
        }
      }
      ApplyEffect(next, rest, names, values);
      assert t !in TargetSet(rest, names) by {
        forall b | b in rest
          ensures Target(b.path, names).value != t
        {
          var j :| 0 <= j < |rest| && rest[j] == b;
          assert fragments[j + 1] == b;
        }
      }
      assert TargetSet(fragments, names) == {t} + TargetSet(rest, names) by {
        assert fragments == [a] + rest;
      }
    }
  }

  /** What the engine answers to the one request the service sends. */
  datatype Response = Ok(status: int, attrs: Option<Item>) | Fault

  /** How an update call ends: with an HTTP status in its metadata, or with an exception. */
  datatype Answer = Status(code: int) | Faults

  /** The write requests the engine received, in order. */
  datatype Command = PutItem(item: Item) | UpdateItem(request: UpdateRequest) | DeleteItem(key: string)

  /** An update the engine accepts never changes the key attribute of a record. */
  lemma KeyKept(item: Item, req: UpdateRequest)
    requires WellFormed(req)
    ensures KeyAttribute in item ==>
      && KeyAttribute in Apply(item, req.fragments, req.names, req.values)
      && Apply(item, req.fragments, req.names, req.values)[KeyAttribute] == item[KeyAttribute]
  {
    ApplyEffect(item, req.fragments, req.names, req.values);
    assert KeyAttribute !in TargetSet(req.fragments, req.names);
  }

  /**
   * The table. `items` is its content; `sent` records every write request
   * received, so that "storage was not called" can be stated.
   */
  class Table {
    var items: map<string, Item>
    ghost var sent: seq<Command>

    /** Every record is stored under the value of its own key attribute. */
    predicate Valid()
      reads this
    {
      forall k :: k in items ==> KeyAttribute in items[k] && items[k][KeyAttribute] == Str(k)
    }

    constructor ()
      ensures Valid()
      ensures items == map[] && sent == []
    {
      items := map[];
      sent := [];
    }

    /** The record a new item starts from: only its key. */
    static function Fresh(key: string): Item
    {
      map[KeyAttribute := Str(key)]
    }

    /** Writes `item` under its key, replacing whatever was stored there. */
    method Put(item: Item, fault: bool) returns (r: Response)
      requires Valid()
      modifies this
      ensures Valid()
      ensures sent == old(sent) + [PutItem(item)]
      ensures var ok := !fault && KeyAttribute in item && item[KeyAttribute].Str?;
        && (ok ==> r == Ok(200, None) && items == old(items)[item[KeyAttribute].s := item])
        && (!ok ==> r == Fault && items == old(items))
    {
      sent := sent + [PutItem(item)];
      if !fault && KeyAttribute in item && item[KeyAttribute].Str? {
        items := items[item[KeyAttribute].s := item];
        r := Ok(200, None);
      } else {
        r := Fault;
      }
    }

    /**
     * Sets the assigned attributes of the record under `req.key`, creating it if
     * absent, and returns the whole new record. A non-string key or a request the
     * engine does not accept faults; a reported status other than 200 changes nothing.
     */
    method Update(req: UpdateRequest, answer: Answer) returns (r: Response)
      requires Valid()
      modifies this
      ensures Valid()
      ensures sent == old(sent) + [UpdateItem(req)]
      ensures answer.Faults? || !req.key.Str? || !WellFormed(req) ==> r == Fault && items == old(items)
      ensures answer.Status? && answer.code != 200 && req.key.Str? && WellFormed(req) ==>
        r == Ok(answer.code, None) && items == old(items)
      ensures answer == Status(200) && req.key.Str? && WellFormed(req) ==>
        var k := req.key.s;
        var base := if k in old(items) then old(items)[k] else Fresh(k);
        var merged := Apply(base, req.fragments, req.names, req.values);
        r == Ok(200, Some(merged)) && items == old(items)[k := merged]
    {
      sent := sent + [UpdateItem(req)];
      if answer.Faults? || !req.key.Str? || !WellFormed(req) {
        r := Fault;
      } else if answer.code != 200 {
        r := Ok(answer.code, None);
      } else {
        var k := req.key.s;
        var base := if k in items then items[k] else Fresh(k);
        var merged := Apply(base, req.fragments, req.names, req.values);
        KeyKept(base, req);
        items := items[k := merged];
        r := Ok(200, Some(merged));
      }
    }

    /** Removes the record under `key` and returns what it held, if anything. */
    method Delete(key: string, fault: bool) returns (r: Response)
      requires Valid()
      modifies this
      ensures Valid()
      ensures sent == old(sent) + [DeleteItem(key)]
      ensures fault ==> r == Fault && items == old(items)
      ensures !fault ==>
        && r == Ok(200, if key in old(items) then Some(old(items)[key]) else None)
        && items == old(items) - {key}
    {
      sent := sent + [DeleteItem(key)];
      if fault {
        r := Fault;
      } else {
        r := Ok(200, if key in items then Some(items[key]) else None);
        items := items - {key};
      }
    }
  }
}
