/**
 * `UserService` of user/users.js: list, read, create, replace, partially update
 * and delete users in the table, each answering a `[status, payload]` pair or
 * letting a storage fault escape.
 */
module UserService {
  import opened Results
  import opened JsValues
  import opened Users
  import opened Storage
  import Dates

  const UserCreated := "User created successfully"
  const UserUpdated := "User updated successfully"
  const NoValidProperties := "No valid properties to update"
  const CouldNotUpdate := "Could not update user"

  /** The second element of the pair a service operation answers. */
  datatype Payload =
    | Text(text: string)               // a bare message string
    | Confirmation(msg: string)        // `{ msg: … }`
    | OneUser(user: User)
    | UserList(users: seq<User>)
    | Attributes(attrs: Option<Item>)  // a record as storage returned it (`undefined` when absent)

  /** How a service call ends: a `[status, payload]` pair, or a rejected promise. */
  datatype Outcome = Returned(code: int, payload: Payload) | Thrown

  /** Reading an attribute of a record: a missing one is `undefined`. */
  function AttributeOf(item: Item, name: string): JsValue {
    if name in item then item[name] else Undefined
  }

  /** `new User(Item.userId, Item.name, Item.email, Item.dateOfBirth)`. */
  function UserOf(item: Item): User {
    User(AttributeOf(item, "userId"), AttributeOf(item, "name"),
         AttributeOf(item, "email"), AttributeOf(item, "dateOfBirth"))
  }

  /** The record `post` and `put` write: the four fields of a validated user. */
  function ItemOf(u: User): (item: Item)
    requires WellTyped(u)
    ensures item.Keys == {KeyAttribute, "name", "email", "dateOfBirth"}
    ensures item[KeyAttribute] == u.userId
    ensures UserOf(item) == u
  {
    map[KeyAttribute := u.userId, "name" := u.name, "email" := u.email, "dateOfBirth" := u.dateOfBirth]
  }

  /** No key occurs twice in `order`. */
  predicate Distinct(order: seq<string>) {
    forall i, j :: 0 <= i < j < |order| ==> order[i] != order[j]
  }

  /** The keys that occur in `order`. */
  function KeysOf(order: seq<string>): set<string> {
    set k | k in order
  }

  /** Scan order: every key of the table, each exactly once. */
  predicate ListsKeysOnce(order: seq<string>, items: map<string, Item>) {
    Distinct(order) && items.Keys == KeysOf(order)
  }

  /** A sequence without repetitions has as many keys as entries. */
  lemma {:induction false} DistinctCount(order: seq<string>)
    requires Distinct(order)
    ensures |KeysOf(order)| == |order|
  {
    if order != [] {
      var rest := order[1..];
      assert KeysOf(order) == {order[0]} + KeysOf(rest) by {
        assert order == [order[0]] + rest;
      }
      assert Distinct(rest) by {
        forall i, j | 0 <= i < j < |rest|
          ensures rest[i] != rest[j]
        {
          assert rest[i] == order[i + 1] && rest[j] == order[j + 1];
        }
      }
      DistinctCount(rest);
    }
  }

  /** The users of the records listed in `order`, in that order. */
  function Listed(order: seq<string>, items: map<string, Item>): (users: seq<User>)
    requires ListsKeysOnce(order, items)
    ensures |users| == |items|
    ensures forall k :: k in items ==> UserOf(items[k]) in users
    ensures forall u :: u in users ==> exists k :: k in items && u == UserOf(items[k])
  {
    DistinctCount(order);
    var users := seq(|order|, i requires 0 <= i < |order| => UserOf(items[order[i]]));
    assert forall k :: k in items ==> UserOf(items[k]) in users by {
      forall k | k in items
        ensures UserOf(items[k]) in users
      {
        var i :| 0 <= i < |order| && order[i] == k;
        assert users[i] == UserOf(items[k]);
      }
    }
    assert forall u :: u in users ==> exists k :: k in items && u == UserOf(items[k]) by {
      forall u | u in users
        ensures exists k :: k in items && u == UserOf(items[k])
      {
        var i :| 0 <= i < |users| && users[i] == u;
        assert order[i] in items;
      }
    }
    users
  }

  // ---------------------------------------------------------------------------
  // The partial update

  /** The fields `patch` may set, in the order it considers them. */
  datatype Field = Name | Email | DateOfBirth

  function Rank(f: Field): nat {
    match f
    case Name => 0
    case Email => 1
    case DateOfBirth => 2
  }

  function AttributeName(f: Field): string {
    match f
    case Name => "name"
    case Email => "email"
    case DateOfBirth => "dateOfBirth"
  }

  /** `name` is a reserved word of the expression language, so it is written through the alias `#name`. */
  function PathOf(f: Field): string {
    if f == Name then "#name" else AttributeName(f)
  }

  function PlaceholderOf(f: Field): (p: string)
    ensures p == ":" + AttributeName(f)
  {
    match f
    case Name => ":name"
    case Email => ":email"
    case DateOfBirth => ":dateOfBirth"
  }

  function AssignmentOf(f: Field): Assignment {
    Assignment(PathOf(f), PlaceholderOf(f))
  }

  function FieldValue(u: User, f: Field): JsValue {
    match f
    case Name => u.name
    case Email => u.email
    case DateOfBirth => u.dateOfBirth
  }

  /** The fields a partial update sets: the truthy ones, in the order name, email, dateOfBirth. */
  function Included(u: User): (fs: seq<Field>)
    ensures forall f :: f in fs <==> Truthy(FieldValue(u, f))
    ensures forall i, j :: 0 <= i < j < |fs| ==> Rank(fs[i]) < Rank(fs[j])
  {
    (if Truthy(u.name) then [Name] else [])
    + (if Truthy(u.email) then [Email] else [])
    + (if Truthy(u.dateOfBirth) then [DateOfBirth] else [])
  }

  function FragmentsFor(fs: seq<Field>): seq<Assignment> {
    seq(|fs|, i requires 0 <= i < |fs| => AssignmentOf(fs[i]))
  }

  function NamesFor(fs: seq<Field>): Option<map<string, string>> {
    if Name in fs then Some(map["#name" := "name"]) else None
  }

  function ValuesFor(u: User, fs: seq<Field>): map<string, JsValue> {
    map f | f in fs :: PlaceholderOf(f) := FieldValue(u, f)
  }

  /** The update request for the fields in `fs`. */
  function RequestFor(u: User, fs: seq<Field>): UpdateRequest {
    UpdateRequest(u.userId, FragmentsFor(fs), NamesFor(fs), ValuesFor(u, fs))
  }

  /** Adding one more field appends its fragment and its value. */
  lemma AddField(u: User, fs: seq<Field>, f: Field)
    ensures FragmentsFor(fs + [f]) == FragmentsFor(fs) + [AssignmentOf(f)]
    ensures ValuesFor(u, fs + [f]) == ValuesFor(u, fs)[PlaceholderOf(f) := FieldValue(u, f)]
  {
    var left := ValuesFor(u, fs + [f]);
    var right := ValuesFor(u, fs)[PlaceholderOf(f) := FieldValue(u, f)];
    assert left.Keys == right.Keys;
    forall p | p in left
      ensures left[p] == right[p]
    {
    }
  }

  /**
   * What `patch` decides before storage is called: a falsy userId, then a
   * truthy dateOfBirth that is not a date, then the absence of any truthy
   * field is rejected; otherwise the request for the truthy fields.
   */
  function PlanUpdate(u: User): (r: Result<UpdateRequest, string>)
    ensures !Truthy(u.userId) ==> r == Failure(UserIdRequired)
    ensures Truthy(u.userId) && Truthy(u.dateOfBirth) && !u.dateOfBirth.Str? ==>
            r == Failure(DateOfBirthUnparsable)
    ensures Truthy(u.userId) && u.dateOfBirth.Str? && Truthy(u.dateOfBirth)
              && !Dates.IsCalendarDate(u.dateOfBirth.s) ==>
            r == Failure(DateOfBirthInvalid)
    ensures Truthy(u.userId) && !Truthy(u.name) && !Truthy(u.email) && !Truthy(u.dateOfBirth) ==>
            r == Failure(NoValidProperties)
    ensures r.Failure? ==> r.error in {UserIdRequired, DateOfBirthUnparsable, DateOfBirthInvalid, NoValidProperties}
    ensures r.Success? <==>
            && Truthy(u.userId)
            && (Truthy(u.name) || Truthy(u.email) || Truthy(u.dateOfBirth))
            && (Truthy(u.dateOfBirth) ==> u.dateOfBirth.Str? && Dates.IsCalendarDate(u.dateOfBirth.s))
    ensures r.Success? ==> r.value.key == u.userId
  {
    if !Truthy(u.userId) then Failure(UserIdRequired)
    else if Truthy(u.dateOfBirth) && ValidateDateOfBirth(u.dateOfBirth) != "" then
      Failure(ValidateDateOfBirth(u.dateOfBirth))
    else if Included(u) == [] then Failure(NoValidProperties)
    else Success(RequestFor(u, Included(u)))
  }

  /**
   * The part of `patch` that builds the update: it pushes fragments, fills the
   * placeholder values and sets the `#name` alias field by field, returning
   * early on a rejected input.
   */
  method BuildUpdate(user: User) returns (r: Result<UpdateRequest, string>)
    ensures r == PlanUpdate(user)
  {
    if !Truthy(user.userId) {
      return Failure(UserIdRequired);
    }
    var fragments: seq<Assignment> := [];
    var names: Option<map<string, string>> := None;
    var values: map<string, JsValue> := map[];
    ghost var fs: seq<Field> := [];
    assert ValuesFor(user, fs) == map[];
    if Truthy(user.name) {
      fragments := fragments + [Assignment("#name", ":name")];
      names := Some(map["#name" := "name"]);
      values := values[":name" := user.name];
      AddField(user, fs, Name);
      fs := fs + [Name];
    }
    assert fragments == FragmentsFor(fs) && names == NamesFor(fs) && values == ValuesFor(user, fs);
    assert fs == if Truthy(user.name) then [Name] else [];
    ghost var before := fs;
    if Truthy(user.email) {
      fragments := fragments + [Assignment("email", ":email")];
      values := values[":email" := user.email];
      AddField(user, fs, Email);
      fs := fs + [Email];
    }
    assert fragments == FragmentsFor(fs) && names == NamesFor(fs) && values == ValuesFor(user, fs);
    assert fs == before + if Truthy(user.email) then [Email] else [];
    before := fs;
    if Truthy(user.dateOfBirth) {
      var msg := ValidateDateOfBirth(user.dateOfBirth);
      if msg != "" {
        return Failure(msg);
      }
      fragments := fragments + [Assignment("dateOfBirth", ":dateOfBirth")];
      values := values[":dateOfBirth" := user.dateOfBirth];
      AddField(user, fs, DateOfBirth);
      fs := fs + [DateOfBirth];
    }
    assert fragments == FragmentsFor(fs) && names == NamesFor(fs) && values == ValuesFor(user, fs);
    assert fs == before + if Truthy(user.dateOfBirth) then [DateOfBirth] else [];
    assert fs == Included(user);
    if |fragments| == 0 {
      return Failure(NoValidProperties);
    }
    r := Success(UpdateRequest(user.userId, fragments, names, values));
  }

  /** The attributes of the fields in `fs`. */
  function FieldAttributes(fs: seq<Field>): set<string> {
    set f | f in fs :: AttributeName(f)
  }

  /** The attributes a partial update of `u` sets. */
  function IncludedAttributes(u: User): set<string> {
    FieldAttributes(Included(u))
  }

  /** A partial update sets exactly the attributes of the truthy fields. */
  lemma IncludedAttributesOf(u: User)
    ensures "name" in IncludedAttributes(u) <==> Truthy(u.name)
    ensures "email" in IncludedAttributes(u) <==> Truthy(u.email)
    ensures "dateOfBirth" in IncludedAttributes(u) <==> Truthy(u.dateOfBirth)
    ensures KeyAttribute !in IncludedAttributes(u)
  {
    forall f: Field
      ensures AttributeName(f) in IncludedAttributes(u) <==> Truthy(FieldValue(u, f))
    {
      if AttributeName(f) in IncludedAttributes(u) {
        var g :| g in Included(u) && AttributeName(g) == AttributeName(f);
      }
    }
    assert AttributeName(Name) == "name" && AttributeName(Email) == "email";
    assert AttributeName(DateOfBirth) == "dateOfBirth";
  }

  /** Fields in strictly increasing rank: each appears once. */
  predicate Ordered(fs: seq<Field>) {
    forall i, j :: 0 <= i < j < |fs| ==> Rank(fs[i]) < Rank(fs[j])
  }

  lemma FragmentMembership(fs: seq<Field>, a: Assignment)
    ensures a in FragmentsFor(fs) <==> exists f :: f in fs && a == AssignmentOf(f)
  {
    if a in FragmentsFor(fs) {
      var i :| 0 <= i < |fs| && FragmentsFor(fs)[i] == a;
      assert fs[i] in fs;
    }
    if exists f :: f in fs && a == AssignmentOf(f) {
      var f :| f in fs && a == AssignmentOf(f);
      var i :| 0 <= i < |fs| && fs[i] == f;
      assert FragmentsFor(fs)[i] == a;
    }
  }

  /** With the names of `fs`, each field's path denotes its own attribute. */
  lemma FieldTargets(fs: seq<Field>)
    ensures forall f :: f in fs ==> Target(PathOf(f), NamesFor(fs)) == Some(AttributeName(f))
  {
  }

  lemma RequestResolvable(u: User, fs: seq<Field>)
    ensures Resolvable(FragmentsFor(fs), NamesFor(fs), ValuesFor(u, fs))
  {
    FieldTargets(fs);
    forall a | a in FragmentsFor(fs)
      ensures Target(a.path, NamesFor(fs)).Some?
      ensures Target(a.path, NamesFor(fs)).value != KeyAttribute
      ensures a.placeholder in ValuesFor(u, fs)
    {
      FragmentMembership(fs, a);
    }
  }

  lemma RequestDistinct(fs: seq<Field>)
    requires Ordered(fs)
    ensures DistinctTargets(FragmentsFor(fs), NamesFor(fs))
  {
    var frags := FragmentsFor(fs);
    FieldTargets(fs);
    forall i, j | 0 <= i < j < |frags|
      ensures Target(frags[i].path, NamesFor(fs)) != Target(frags[j].path, NamesFor(fs))
    {
      assert fs[i] != fs[j] by { assert Rank(fs[i]) < Rank(fs[j]); }
      assert fs[i] in fs && fs[j] in fs;
      assert Target(frags[i].path, NamesFor(fs)) == Some(AttributeName(fs[i]));
      assert Target(frags[j].path, NamesFor(fs)) == Some(AttributeName(fs[j]));
    }
  }

  lemma RequestNoUnusedValues(u: User, fs: seq<Field>)
    ensures ValuesFor(u, fs).Keys == Placeholders(FragmentsFor(fs))
  {
    forall p | p in Placeholders(FragmentsFor(fs))
      ensures p in ValuesFor(u, fs)
    {
      var a :| a in FragmentsFor(fs) && a.placeholder == p;
      FragmentMembership(fs, a);
    }
    forall p | p in ValuesFor(u, fs)
      ensures p in Placeholders(FragmentsFor(fs))
    {
      var f :| f in fs && PlaceholderOf(f) == p;
      FragmentMembership(fs, AssignmentOf(f));
    }
  }

  lemma RequestNoUnusedNames(fs: seq<Field>)
    ensures NamesFor(fs).Some? ==> NamesFor(fs).value.Keys == AliasPaths(FragmentsFor(fs)) != {}
  {
    forall a | a in FragmentsFor(fs) && IsAlias(a.path)
      ensures a == AssignmentOf(Name)
    {
      FragmentMembership(fs, a);
    }
    if Name in fs {
      FragmentMembership(fs, AssignmentOf(Name));
      assert IsAlias(AssignmentOf(Name).path);
      assert "#name" in AliasPaths(FragmentsFor(fs));
    }
  }

  lemma RequestTargets(fs: seq<Field>)
    ensures TargetSet(FragmentsFor(fs), NamesFor(fs)) == FieldAttributes(fs)
  {
    var frags, names := FragmentsFor(fs), NamesFor(fs);
    FieldTargets(fs);
    forall t | t in TargetSet(frags, names)
      ensures t in FieldAttributes(fs)
    {
      var a :| a in frags && Target(a.path, names).Some? && t == Target(a.path, names).value;
      FragmentMembership(fs, a);
      var f :| f in fs && a == AssignmentOf(f);
      assert t == AttributeName(f);
    }
    forall t | t in FieldAttributes(fs)
      ensures t in TargetSet(frags, names)
    {
      var f :| f in fs && t == AttributeName(f);
      FragmentMembership(fs, AssignmentOf(f));
    }
  }

  /**
   * The request `patch` sends is one the engine accepts: each path denotes its
   * field's attribute (never the key), placeholders have values, no value or
   * alias is unused, and no attribute is set twice.
   */
  lemma PlanWellFormed(u: User)
    requires PlanUpdate(u).Success?
    ensures WellFormed(PlanUpdate(u).value)
    ensures var req := PlanUpdate(u).value;
      && (forall f :: f in Included(u) ==> Target(PathOf(f), req.names) == Some(AttributeName(f)))
      && TargetSet(req.fragments, req.names) == IncludedAttributes(u)
  {
    var fs := Included(u);
    assert PlanUpdate(u).value == RequestFor(u, fs);
    FieldTargets(fs);
    RequestResolvable(u, fs);
    RequestDistinct(fs);
    RequestNoUnusedValues(u, fs);
    RequestNoUnusedNames(fs);
    RequestTargets(fs);
  }

  /**
   * The record after a partial update: each truthy field is set to its value,
   * nothing else changes, and in particular the key attribute stays as it was.
   */
  lemma PatchedRecord(u: User, base: Item)
    requires PlanUpdate(u).Success?
    ensures var req := PlanUpdate(u).value;
      Apply(base, req.fragments, req.names, req.values).Keys == base.Keys + IncludedAttributes(u)
    ensures var req := PlanUpdate(u).value;
      forall f :: Truthy(FieldValue(u, f)) ==>
        Apply(base, req.fragments, req.names, req.values)[AttributeName(f)] == FieldValue(u, f)
    ensures var req := PlanUpdate(u).value;
      forall k :: k in base && k !in IncludedAttributes(u) ==>
        Apply(base, req.fragments, req.names, req.values)[k] == base[k]
    ensures var req := PlanUpdate(u).value;
      KeyAttribute in base ==> Apply(base, req.fragments, req.names, req.values)[KeyAttribute] == base[KeyAttribute]
  {
    var fs := Included(u);
    assert PlanUpdate(u).value == RequestFor(u, fs);
    AppliedRequestKeeps(u, fs, base);
    AppliedRequestSets(u, fs, base);
  }

  /** Carrying out the request for `fs` adds exactly the fields' attributes and keeps the others. */
  lemma AppliedRequestKeeps(u: User, fs: seq<Field>, base: Item)
    requires Ordered(fs)
    ensures var req := RequestFor(u, fs);
      Apply(base, req.fragments, req.names, req.values).Keys == base.Keys + (FieldAttributes(fs))
    ensures var req := RequestFor(u, fs);
      forall k :: k in base && k !in (FieldAttributes(fs)) ==>
        Apply(base, req.fragments, req.names, req.values)[k] == base[k]
    ensures var req := RequestFor(u, fs);
      KeyAttribute in base ==> Apply(base, req.fragments, req.names, req.values)[KeyAttribute] == base[KeyAttribute]
  {
    var req := RequestFor(u, fs);
    assert Resolvable(req.fragments, req.names, req.values) && DistinctTargets(req.fragments, req.names) by {
      RequestResolvable(u, fs);
      RequestDistinct(fs);
    }
    assert TargetSet(req.fragments, req.names) == FieldAttributes(fs) by {
      RequestTargets(fs);
    }
    ApplyEffect(base, req.fragments, req.names, req.values);
    assert KeyAttribute !in FieldAttributes(fs);
  }

  /** Carrying out the request for `fs` sets each field's attribute to the field's value. */
  lemma AppliedRequestSets(u: User, fs: seq<Field>, base: Item)
    requires Ordered(fs)
    ensures var req := RequestFor(u, fs);
      forall f :: f in fs ==>
        && AttributeName(f) in Apply(base, req.fragments, req.names, req.values)
        && Apply(base, req.fragments, req.names, req.values)[AttributeName(f)] == FieldValue(u, f)
  {
    var req := RequestFor(u, fs);
    assert Resolvable(req.fragments, req.names, req.values) && DistinctTargets(req.fragments, req.names) by {
      RequestResolvable(u, fs);
      RequestDistinct(fs);
    }
    ApplyEffect(base, req.fragments, req.names, req.values);
    forall f | f in fs
      ensures AttributeName(f) in Apply(base, req.fragments, req.names, req.values)
      ensures Apply(base, req.fragments, req.names, req.values)[AttributeName(f)] == FieldValue(u, f)
    {
      FieldFragment(u, fs, f);
    }
  }

  /** A field of `fs` contributes a fragment whose target is its attribute and whose value is its own. */
  lemma FieldFragment(u: User, fs: seq<Field>, f: Field)
    requires f in fs
    ensures AssignmentOf(f) in RequestFor(u, fs).fragments
    ensures Target(AssignmentOf(f).path, RequestFor(u, fs).names) == Some(AttributeName(f))
    ensures RequestFor(u, fs).values[AssignmentOf(f).placeholder] == FieldValue(u, f)
  {
    FragmentMembership(fs, AssignmentOf(f));
    FieldTargets(fs);
  }

  /** The first partial update of the unit tests: every field set. */
  lemma FullPatchExample(u: User)
    requires Truthy(u.userId) && Truthy(u.name) && Truthy(u.email)
    requires u.dateOfBirth.Str? && Dates.IsCalendarDate(u.dateOfBirth.s)
    ensures PlanUpdate(u) == Success(UpdateRequest(
              u.userId,
              [Assignment("#name", ":name"), Assignment("email", ":email"), Assignment("dateOfBirth", ":dateOfBirth")],
              Some(map["#name" := "name"]),
              map[":name" := u.name, ":email" := u.email, ":dateOfBirth" := u.dateOfBirth]))
    ensures Expression(PlanUpdate(u).value.fragments)
            == "SET " + "#name = :name" + ", " + "email = :email" + ", " + "dateOfBirth = :dateOfBirth"
  {
    assert Included(u) == [Name, Email, DateOfBirth];
    assert PlanUpdate(u) == Success(RequestFor(u, [Name, Email, DateOfBirth]));
    FullRequest(u);
    FullExpressionText();
  }

  lemma FullRequest(u: User)
    ensures RequestFor(u, [Name, Email, DateOfBirth]) == UpdateRequest(
              u.userId,
              [Assignment("#name", ":name"), Assignment("email", ":email"), Assignment("dateOfBirth", ":dateOfBirth")],
              Some(map["#name" := "name"]),
              map[":name" := u.name, ":email" := u.email, ":dateOfBirth" := u.dateOfBirth])
  {
    var fs := [Name, Email, DateOfBirth];
    assert FragmentsFor(fs) == [AssignmentOf(Name), AssignmentOf(Email), AssignmentOf(DateOfBirth)];
    assert ValuesFor(u, fs) == map[":name" := u.name, ":email" := u.email, ":dateOfBirth" := u.dateOfBirth];
  }

  lemma FullExpressionText()
    ensures Expression([Assignment("#name", ":name"), Assignment("email", ":email"), Assignment("dateOfBirth", ":dateOfBirth")])
            == "SET " + "#name = :name" + ", " + "email = :email" + ", " + "dateOfBirth = :dateOfBirth"
  {
    var frags := [Assignment("#name", ":name"), Assignment("email", ":email"), Assignment("dateOfBirth", ":dateOfBirth")];
    var parts := ["#name = :name", "email = :email", "dateOfBirth = :dateOfBirth"];
    assert Render(frags[0]) == parts[0];
    assert Render(frags[1]) == parts[1];
    assert Render(frags[2]) == parts[2];
    assert Rendered(frags) == parts;
    assert Join(parts[2..], ", ") == parts[2];
    assert Join(parts[1..], ", ") == parts[1] + ", " + parts[2];
  }

  /** The second partial update of the unit tests: only a name. */
  lemma NamePatchExample(u: User)
    requires Truthy(u.userId) && Truthy(u.name) && !Truthy(u.email) && !Truthy(u.dateOfBirth)
    ensures PlanUpdate(u) == Success(UpdateRequest(
              u.userId, [Assignment("#name", ":name")], Some(map["#name" := "name"]), map[":name" := u.name]))
    ensures Expression(PlanUpdate(u).value.fragments) == "SET #name = :name"
  {
    assert Included(u) == [Name];
    assert PlanUpdate(u) == Success(RequestFor(u, [Name]));
    assert FragmentsFor([Name]) == [AssignmentOf(Name)];
    assert ValuesFor(u, [Name]) == map[":name" := u.name];
    assert Render(Assignment("#name", ":name")) == "#name = :name";
    assert Rendered([Assignment("#name", ":name")]) == ["#name = :name"];
  }

  /** Partial updates that are refused, with their messages: the unit tests' three and a date that is no string. */
  lemma PatchRejectionExamples()
    ensures PlanUpdate(User(Str(""), Str("Test User"), Str(""), Str(""))) == Failure(UserIdRequired)
    ensures PlanUpdate(User(Str("test"), Str(""), Str(""), Str("1990-01-01"))) == Failure(DateOfBirthInvalid)
    ensures PlanUpdate(User(Str("test"), Str(""), Str(""), Str(""))) == Failure(NoValidProperties)
    ensures PlanUpdate(User(Str("test"), Str(""), Str(""), Other(true))) == Failure(DateOfBirthUnparsable)
  {
    assert !Dates.HasDateShape("1990-01-01") by { assert "1990-01-01"[4] == '-'; }
  }

  /**
   * A userId of whitespace only is refused by full validation, because it is
   * trimmed there, yet passes the guard of `patch`, which only asks for truthiness.
   */
  lemma BlankUserIdDivergence(u: User)
    requires u.userId.Str? && u.userId.s != "" && AllWhitespace(u.userId.s)
    requires u.name.Str? && u.email.Str? && u.dateOfBirth.Str?
    ensures FullValidate(u) == UserIdRequired
    ensures PlanUpdate(u) != Failure(UserIdRequired)
  {
  }

  // ---------------------------------------------------------------------------
  // The service

  /**
   * `UserService`: the six operations over the users table. A storage fault is
   * chosen by the caller (`fault`, `answer`) and escapes as `Thrown`.
   */
  class Service {
    const table: Table

    constructor (table: Table)
      ensures this.table == table
    {
      this.table := table;
    }

    /** `getAll`: one user per stored record, in the order the scan lists them. */
    function GetAll(order: seq<string>, fault: bool): (r: Outcome)
      reads table
      requires ListsKeysOnce(order, table.items)
      ensures r.Thrown? <==> fault
      ensures r.Returned? ==> r.code == 200 && r.payload.UserList?
      ensures r.Returned? ==> |r.payload.users| == |table.items|
      ensures r.Returned? ==> forall k :: k in table.items ==> UserOf(table.items[k]) in r.payload.users
      ensures r.Returned? ==> forall u :: u in r.payload.users ==>
        exists k :: k in table.items && u == UserOf(table.items[k])
    {
      if fault then Thrown else Returned(200, UserList(Listed(order, table.items)))
    }

    /**
     * `get`: the user stored under `userId`. Reading a field of the missing
     * record of an absent key throws, as does a storage fault.
     */
    function Get(userId: string, fault: bool): (r: Outcome)
      reads table
      ensures r.Returned? <==> !fault && userId in table.items
      ensures r.Returned? ==> r.code == 200 && r.payload.OneUser?
      ensures r.Returned? && table.Valid() ==> r.payload.user.userId == Str(userId)
    {
      if fault || userId !in table.items then Thrown
      else Returned(200, OneUser(UserOf(table.items[userId])))
    }

    /** The common body of `post` and `put`: validate, then write the whole record. */
    method Save(user: User, fault: bool, confirmation: string) returns (r: Outcome)
      requires table.Valid()
      modifies table
      ensures table.Valid()
      ensures FullValidate(user) != "" ==> r == Returned(400, Text(FullValidate(user))) && unchanged(table)
      ensures FullValidate(user) == "" ==>
        && WellTyped(user)
        && table.sent == old(table.sent) + [PutItem(ItemOf(user))]
        && (fault ==> r == Thrown && table.items == old(table.items))
        && (!fault ==> r == Returned(200, Confirmation(confirmation))
                       && table.items == old(table.items)[user.userId.s := ItemOf(user)])
    {
      var msg := FullValidate(user);
      if msg != "" {
        return Returned(400, Text(msg));
      }
      var response := table.Put(ItemOf(user), fault);
      if response.Fault? {
        return Thrown;
      }
      r := Returned(200, Confirmation(confirmation));
    }

    /** `post`: create a user after full validation. */
    method Post(user: User, fault: bool) returns (r: Outcome)
      requires table.Valid()
      modifies table
      ensures table.Valid()
      ensures FullValidate(user) != "" ==> r == Returned(400, Text(FullValidate(user))) && unchanged(table)
      ensures FullValidate(user) == "" ==>
        && WellTyped(user)
        && table.sent == old(table.sent) + [PutItem(ItemOf(user))]
        && (fault ==> r == Thrown && table.items == old(table.items))
        && (!fault ==> r == Returned(200, Confirmation(UserCreated))
                       && table.items == old(table.items)[user.userId.s := ItemOf(user)])
    {
      r := Save(user, fault, UserCreated);
    }

    /** `put`: replace a user after full validation; the same write as `post`. */
    method Put(user: User, fault: bool) returns (r: Outcome)
      requires table.Valid()
      modifies table
      ensures table.Valid()
      ensures FullValidate(user) != "" ==> r == Returned(400, Text(FullValidate(user))) && unchanged(table)
      ensures FullValidate(user) == "" ==>
        && WellTyped(user)
        && table.sent == old(table.sent) + [PutItem(ItemOf(user))]
        && (fault ==> r == Thrown && table.items == old(table.items))
        && (!fault ==> r == Returned(200, Confirmation(UserUpdated))
                       && table.items == old(table.items)[user.userId.s := ItemOf(user)])
    {
      r := Save(user, fault, UserUpdated);
    }

    /**
     * `patch`: build the update; a rejected plan answers 400 without touching
     * storage. Otherwise the update is sent; a storage fault throws, a status
     * other than 200 is answered with that status, and 200 with the new record,
     * in which every truthy field holds its value and every other attribute of
     * the stored record (the key among them) is kept.
     */
    method Patch(user: User, answer: Answer) returns (r: Outcome)
      requires table.Valid()
      modifies table
      ensures table.Valid()
      ensures PlanUpdate(user).Failure? ==>
        r == Returned(400, Text(PlanUpdate(user).error)) && unchanged(table)
      ensures PlanUpdate(user).Success? ==> table.sent == old(table.sent) + [UpdateItem(PlanUpdate(user).value)]
      ensures PlanUpdate(user).Success? && (answer.Faults? || !user.userId.Str?) ==>
        r == Thrown && table.items == old(table.items)
      ensures PlanUpdate(user).Success? && user.userId.Str? && answer.Status? && answer.code != 200 ==>
        r == Returned(answer.code, Text(CouldNotUpdate)) && table.items == old(table.items)
      ensures PlanUpdate(user).Success? && user.userId.Str? && answer == Status(200) ==>
        var k := user.userId.s;
        var base := if k in old(table.items) then old(table.items)[k] else Table.Fresh(k);
        && k in table.items
        && r == Returned(200, Attributes(Some(table.items[k])))
        && table.items == old(table.items)[k := table.items[k]]
        && table.items[k].Keys == base.Keys + IncludedAttributes(user)
        && table.items[k][KeyAttribute] == Str(k)
        && (forall f :: Truthy(FieldValue(user, f)) ==> table.items[k][AttributeName(f)] == FieldValue(user, f))
        && (forall a :: a in base && a !in IncludedAttributes(user) ==> table.items[k][a] == base[a])
    {
      var plan := BuildUpdate(user);
      if plan.Failure? {
        return Returned(400, Text(plan.error));
      }
      PlanWellFormed(user);
      if user.userId.Str? {
        var k := user.userId.s;
        var base := if k in table.items then table.items[k] else Table.Fresh(k);
        PatchedRecord(user, base);
      }
      var response := table.Update(plan.value, answer);
      if response.Fault? {
        return Thrown;
      }
      if response.status != 200 {
        return Returned(response.status, Text(CouldNotUpdate));
      }
      r := Returned(200, Attributes(response.attrs));
    }

    /** `delete`: remove the record and answer what it held (nothing when absent). */
    method Delete(userId: string, fault: bool) returns (r: Outcome)
      requires table.Valid()
      modifies table
      ensures table.Valid()
      ensures table.sent == old(table.sent) + [DeleteItem(userId)]
      ensures fault ==> r == Thrown && table.items == old(table.items)
      ensures !fault ==>
        && r == Returned(200, Attributes(if userId in old(table.items) then Some(old(table.items)[userId]) else None))
        && userId !in table.items
        && table.items == old(table.items) - {userId}
    {
      var response := table.Delete(userId, fault);
      if response.Fault? {
        return Thrown;
      }
      r := Returned(200, Attributes(response.attrs));
    }

    /** A user created by `post` is the user `get` reads back under its id. */
    method PostThenGet(user: User) returns (created: Outcome, read: Outcome)
      requires table.Valid()
      requires FullValidate(user) == ""
      modifies table
      ensures table.Valid()
      ensures created == Returned(200, Confirmation(UserCreated))
      ensures read == Returned(200, OneUser(user))
    {
      created := Post(user, false);
      read := Get(user.userId.s, false);
    }

    /** After `delete`, reading the same id throws: the record is gone. */
    method DeleteThenGet(userId: string) returns (deleted: Outcome, read: Outcome)
      requires table.Valid()
      modifies table
      ensures table.Valid()
      ensures deleted.Returned? && deleted.code == 200
      ensures read == Thrown
    {
      deleted := Delete(userId, false);
      read := Get(userId, false);
    }

    /**
     * After a successful `patch` of a stored user, `get` reads the patched
     * fields back and the untouched fields as they were.
     */
    method PatchThenGet(user: User) returns (patched: Outcome, read: Outcome)
      requires table.Valid()
      requires user.userId.Str? && user.userId.s in table.items
      requires PlanUpdate(user).Success?
      modifies table
      ensures table.Valid()
      ensures patched.Returned? && patched.code == 200
      ensures read.Returned? && read.code == 200 && read.payload.OneUser?
      ensures read.payload.user.userId == user.userId
      ensures Truthy(user.name) ==> read.payload.user.name == user.name
      ensures Truthy(user.email) ==> read.payload.user.email == user.email
      ensures Truthy(user.dateOfBirth) ==> read.payload.user.dateOfBirth == user.dateOfBirth
      ensures !Truthy(user.name) ==> read.payload.user.name == old(UserOf(table.items[user.userId.s])).name
      ensures !Truthy(user.email) ==> read.payload.user.email == old(UserOf(table.items[user.userId.s])).email
      ensures !Truthy(user.dateOfBirth) ==>
        read.payload.user.dateOfBirth == old(UserOf(table.items[user.userId.s])).dateOfBirth
    {
      patched := Patch(user, Status(200));
      read := Get(user.userId.s, false);
      IncludedAttributesOf(user);
    }
  }
}
