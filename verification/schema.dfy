/**
 The request-body schemas of the resource router. The create schema asks
 for an object whose `name` is a string of length at least 1, whose
 `description`, if present, is a string, and whose `tags`, if present, is an
 array of strings; keys outside these three are stripped. The update schema
 is the same with every field optional.
 */
module Schema {
  import opened Wrappers

  /** A parsed JSON body. Numbers never pass any field rule, so they are kept
      as integers. */
  datatype Json =
    | JNull
    | JBool(b: bool)
    | JNumber(n: int)
    | JString(s: string)
    | JArray(items: seq<Json>)
    | JObject(fields: map<string, Json>)

  datatype Field = Name | Description | Tags

  function Key(f: Field): (k: string) {
    match f
    case Name => "name"
    case Description => "description"
    case Tags => "tags"
  }

  /** Why a body is rejected: it is not an object, or one field breaks its rule. */
  datatype Issue = NotAnObject | BadField(field: Field)

  datatype Validated<T> = Accepted(value: T) | Rejected(issues: set<Issue>)

  datatype CreateInput = CreateInput(name: string, description: Option<string>, tags: Option<seq<string>>)

  datatype UpdateInput = UpdateInput(name: Option<string>, description: Option<string>, tags: Option<seq<string>>)

  predicate IsStringArray(v: Json) {
    v.JArray? && forall i :: 0 <= i < |v.items| ==> v.items[i].JString?
  }

  /** The rule a present value of field `f` must satisfy. */
  predicate ValueOk(f: Field, v: Json) {
    match f
    case Name => v.JString? && |v.s| >= 1
    case Description => v.JString?
    case Tags => IsStringArray(v)
  }

  /** Field `f` of an object passes: present and well-shaped, or absent when
      it is optional. `name` is required by the create schema only. */
  predicate FieldOk(fields: map<string, Json>, f: Field, nameRequired: bool) {
    if Key(f) in fields then ValueOk(f, fields[Key(f)])
    else !(nameRequired && f == Name)
  }

  /** Every field issue of an object, all of them reported together. */
  function FieldIssues(fields: map<string, Json>, nameRequired: bool): (issues: set<Issue>)
    ensures forall f :: BadField(f) in issues <==> !FieldOk(fields, f, nameRequired)
    ensures NotAnObject !in issues
  {
    (if FieldOk(fields, Name, nameRequired) then {} else {BadField(Name)})
    + (if FieldOk(fields, Description, nameRequired) then {} else {BadField(Description)})
    + (if FieldOk(fields, Tags, nameRequired) then {} else {BadField(Tags)})
  }

  function Strings(items: seq<Json>): (r: seq<string>)
    requires forall i :: 0 <= i < |items| ==> items[i].JString?
    ensures |r| == |items|
    ensures forall i :: 0 <= i < |items| ==> r[i] == items[i].s
  {
    if |items| == 0 then [] else [items[0].s] + Strings(items[1..])
  }

  function OptionalString(fields: map<string, Json>, key: string): (r: Option<string>)
    requires key in fields ==> fields[key].JString?
  {
    if key in fields then Some(fields[key].s) else None
  }

  function OptionalStrings(fields: map<string, Json>, key: string): (r: Option<seq<string>>)
    requires key in fields ==> IsStringArray(fields[key])
    ensures r.Some? <==> key in fields
    ensures r.Some? ==> fields[key] == StringArray(r.value)
  {
    if key in fields then
      var items := fields[key].items;
      assert StringArray(Strings(items)).items == items;
      Some(Strings(items))
    else None
  }

  /** The body passes the create schema. */
  predicate CreateAccepts(body: Json) {
    body.JObject? && forall f :: FieldOk(body.fields, f, true)
  }

  /** The body passes the update schema. */
  predicate UpdateAccepts(body: Json) {
    body.JObject? && forall f :: FieldOk(body.fields, f, false)
  }

  /** `CreateSchema.safeParse`: accepts exactly the bodies the create schema
      describes, carrying over the three fields; otherwise names every
      failing field, or that the body is not an object. */
  function ParseCreate(body: Json): (r: Validated<CreateInput>)
    ensures r.Accepted? <==> CreateAccepts(body)
    ensures r.Accepted? ==>
      && "name" in body.fields && body.fields["name"] == JString(r.value.name)
      && (r.value.description.Some? <==> "description" in body.fields)
      && (r.value.description.Some? ==> body.fields["description"] == JString(r.value.description.value))
      && (r.value.tags.Some? <==> "tags" in body.fields)
      && (r.value.tags.Some? ==> body.fields["tags"] == StringArray(r.value.tags.value))
    ensures r.Rejected? && body.JObject? ==>
      && NotAnObject !in r.issues
      && forall f :: BadField(f) in r.issues <==> !FieldOk(body.fields, f, true)
    ensures r.Rejected? && !body.JObject? ==> r.issues == {NotAnObject}
  {
    if !body.JObject? then Rejected({NotAnObject})
    else
      var fields := body.fields;
      var issues := FieldIssues(fields, true);
      if issues != {} then
        assert !CreateAccepts(body) by {
          var i :| i in issues;
          assert !FieldOk(fields, i.field, true);
        }
        Rejected(issues)
      else
        assert FieldOk(fields, Name, true) && FieldOk(fields, Description, true) && FieldOk(fields, Tags, true);
        assert forall f :: FieldOk(fields, f, true) by {
          forall f ensures FieldOk(fields, f, true) {
            assert BadField(f) !in issues;
          }
        }
        Accepted(CreateInput(fields["name"].s,
                             OptionalString(fields, "description"),
                             OptionalStrings(fields, "tags")))
  }

  /** `UpdateSchema.safeParse`, the create schema with every field optional. */
  function ParseUpdate(body: Json): (r: Validated<UpdateInput>)
    ensures r.Accepted? <==> UpdateAccepts(body)
    ensures r.Accepted? ==>
      && (r.value.name.Some? <==> "name" in body.fields)
      && (r.value.name.Some? ==> body.fields["name"] == JString(r.value.name.value) && |r.value.name.value| >= 1)
      && (r.value.description.Some? <==> "description" in body.fields)
      && (r.value.description.Some? ==> body.fields["description"] == JString(r.value.description.value))
      && (r.value.tags.Some? <==> "tags" in body.fields)
      && (r.value.tags.Some? ==> body.fields["tags"] == StringArray(r.value.tags.value))
    ensures r.Rejected? && body.JObject? ==>
      && NotAnObject !in r.issues
      && forall f :: BadField(f) in r.issues <==> !FieldOk(body.fields, f, false)
    ensures r.Rejected? && !body.JObject? ==> r.issues == {NotAnObject}
  {
    if !body.JObject? then Rejected({NotAnObject})
    else
      var fields := body.fields;
      var issues := FieldIssues(fields, false);
      if issues != {} then
        assert !UpdateAccepts(body) by {
          var i :| i in issues;
          assert !FieldOk(fields, i.field, false);
        }
        Rejected(issues)
      else
        assert FieldOk(fields, Name, false) && FieldOk(fields, Description, false) && FieldOk(fields, Tags, false);
        assert forall f :: FieldOk(fields, f, false) by {
          forall f ensures FieldOk(fields, f, false) {
            assert BadField(f) !in issues;
          }
        }
        Accepted(UpdateInput(OptionalString(fields, "name"),
                             OptionalString(fields, "description"),
                             OptionalStrings(fields, "tags")))
  }

  /** The JSON array of a list of strings. */
  function StringArray(ts: seq<string>): (v: Json)
    ensures IsStringArray(v) && Strings(v.items) == ts
  {
    JArray(seq(|ts|, i requires 0 <= i < |ts| => JString(ts[i])))
  }

  function Put(fields: map<string, Json>, key: string, v: Option<Json>): (m: map<string, Json>) {
    if v.Some? then fields[key := v.value] else fields
  }

  function StringValue(s: Option<string>): (v: Option<Json>) {
    if s.Some? then Some(JString(s.value)) else None
  }

  function ArrayValue(ts: Option<seq<string>>): (v: Option<Json>) {
    if ts.Some? then Some(StringArray(ts.value)) else None
  }

  /** The body a client sends to create `x`. */
  function EncodeCreate(x: CreateInput): (body: Json) {
    JObject(Put(Put(map["name" := JString(x.name)], "description", StringValue(x.description)),
                "tags", ArrayValue(x.tags)))
  }

  /** The body a client sends to update with `x`. */
  function EncodeUpdate(x: UpdateInput): (body: Json) {
    JObject(Put(Put(Put(map[], "name", StringValue(x.name)), "description", StringValue(x.description)),
                "tags", ArrayValue(x.tags)))
  }

  /** The create schema reads back every input it can describe, and those
      are exactly the inputs with a non-empty name. */
  lemma CreateRoundTrip(x: CreateInput)
    ensures ParseCreate(EncodeCreate(x)) == Accepted(x) <==> |x.name| >= 1
  {
  }

  /** The update schema reads back every input whose name, when given, is
      non-empty, and no other. */
  lemma UpdateRoundTrip(x: UpdateInput)
    ensures ParseUpdate(EncodeUpdate(x)) == Accepted(x) <==> (x.name.Some? ==> |x.name.value| >= 1)
  {
  }

  /** What the create schema accepts, it reads back from its own encoding:
      the accepted input describes the body completely, up to stripped keys. */
  lemma CreateParseEncode(body: Json)
    requires ParseCreate(body).Accepted?
    ensures ParseCreate(EncodeCreate(ParseCreate(body).value)) == ParseCreate(body)
  {
  }

  /** Every body the create schema accepts, the update schema accepts too,
      with the same values. */
  lemma CreateImpliesUpdate(body: Json)
    requires ParseCreate(body).Accepted?
    ensures ParseUpdate(body).Accepted?
    ensures var c, u := ParseCreate(body).value, ParseUpdate(body).value;
            u == UpdateInput(Some(c.name), c.description, c.tags)
  {
  }

  /** An update body that carries a name passes the create schema as well:
      the two schemas differ only in whether `name` may be missing. */
  lemma UpdateWithNameImpliesCreate(body: Json)
    requires ParseUpdate(body).Accepted? && ParseUpdate(body).value.name.Some?
    ensures ParseCreate(body).Accepted?
    ensures var c, u := ParseCreate(body).value, ParseUpdate(body).value;
            u == UpdateInput(Some(c.name), c.description, c.tags)
  {
  }

  /** The empty object: the update schema accepts it with nothing supplied,
      the create schema rejects it for the missing name alone. */
  lemma EmptyBody()
    ensures ParseUpdate(JObject(map[])) == Accepted(UpdateInput(None, None, None))
    ensures ParseCreate(JObject(map[])) == Rejected({BadField(Name)})
  {
  }

  /** A `null` is not an absent field: an optional field set to `null` is
      rejected. */
  lemma NullIsNotAbsent(fields: map<string, Json>)
    ensures ParseUpdate(JObject(fields["description" := JNull])).Rejected?
    ensures ParseCreate(JObject(fields["tags" := JNull])).Rejected?
  {
  }

  /** Keys outside the schema are stripped: they change neither the verdict
      nor the parsed values. */
  lemma UnknownKeysIgnored(fields: map<string, Json>, k: string, v: Json)
    requires k != "name" && k != "description" && k != "tags"
    ensures ParseCreate(JObject(fields[k := v])) == ParseCreate(JObject(fields))
    ensures ParseUpdate(JObject(fields[k := v])) == ParseUpdate(JObject(fields))
  {
  }
}
