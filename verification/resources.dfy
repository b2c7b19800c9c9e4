/**
 The stored resource, its response form, and the partial-update patch the
 update handler builds from an accepted body and merges into the stored row.
 */
module Resources {
  import opened Wrappers
  import opened TagCodec
  import opened Schema

  /** A stored row: tags held in their comma-joined form. `createdAt` is a
      timestamp supplied by the store. */
  datatype Row = Row(id: int, name: string, description: Option<string>, tags: string, createdAt: int)

  /** A row as the router returns it: tags decoded into a list. */
  datatype View = View(id: int, name: string, description: Option<string>, tags: seq<string>, createdAt: int)

  /** `{ ...row, tags: fromCSV(row.tags) }`. */
  function Present(row: Row): (v: View)
    ensures v.id == row.id && v.name == row.name && v.description == row.description
    ensures v.createdAt == row.createdAt
    ensures v.tags == FromCSV(row.tags) && CleanTags(v.tags)
  {
    View(row.id, row.name, row.description, FromCSV(row.tags), row.createdAt)
  }

  /** The row the create handler stores for an accepted body; the store
      supplies `id` and `createdAt`. */
  function NewRow(id: int, createdAt: int, x: CreateInput): (row: Row)
    ensures row.id == id && row.createdAt == createdAt
    ensures row.name == x.name && row.description == x.description
    ensures row.tags == ToCSV(x.tags)
    ensures x.tags.None? ==> row.tags == ""
  {
    Row(id, x.name, x.description, ToCSV(x.tags), createdAt)
  }

  /** The update payload: one optional value per field, tags already encoded. */
  datatype Patch = Patch(name: Option<string>, description: Option<string>, tags: Option<string>)

  const EmptyPatch := Patch(None, None, None)

  /** The payload the update handler builds: a field is set exactly when the
      body supplied it, with its value, and tags are stored encoded. */
  function BuildPatch(u: UpdateInput): (p: Patch)
    ensures p.name == u.name && p.description == u.description
    ensures p.tags.Some? <==> u.tags.Some?
    ensures u.tags.Some? ==> p.tags == Some(ToCSV(u.tags))
  {
    Patch(u.name, u.description, if u.tags.Some? then Some(ToCSV(u.tags)) else None)
  }

  /** The store's update: each supplied field replaces the stored one; the
      others, `id` and `createdAt` among them, are kept. */
  function Merge(row: Row, p: Patch): (r: Row)
    ensures r.id == row.id && r.createdAt == row.createdAt
    ensures r.name == (if p.name.Some? then p.name.value else row.name)
    ensures r.description == (if p.description.Some? then p.description else row.description)
    ensures r.tags == (if p.tags.Some? then p.tags.value else row.tags)
  {
    Row(row.id, p.name.GetOr(row.name),
        if p.description.Some? then p.description else row.description,
        p.tags.GetOr(row.tags), row.createdAt)
  }

  /** Applying `p` and then `q` is one patch: `q`'s fields win over `p`'s. */
  function Then(p: Patch, q: Patch): (pq: Patch) {
    Patch(if q.name.Some? then q.name else p.name,
          if q.description.Some? then q.description else p.description,
          if q.tags.Some? then q.tags else p.tags)
  }

  /** An empty patch leaves the row as it is. */
  lemma MergeEmpty(row: Row)
    ensures Merge(row, EmptyPatch) == row
  {
  }

  /** Merging the same patch twice is merging it once. */
  lemma MergeIdempotent(row: Row, p: Patch)
    ensures Merge(Merge(row, p), p) == Merge(row, p)
  {
  }

  /** Two merges in a row are the merge of the combined patch. */
  lemma MergeThen(row: Row, p: Patch, q: Patch)
    ensures Merge(Merge(row, p), q) == Merge(row, Then(p, q))
  {
  }

  /** An update body with no fields builds the empty patch. */
  lemma EmptyUpdateBuildsEmptyPatch()
    ensures BuildPatch(UpdateInput(None, None, None)) == EmptyPatch
  {
  }

  /** What the update handler returns: supplied fields replace the stored
      ones, the rest is unchanged; supplied comma-free tags come back trimmed
      with the empty ones dropped, and clean tags come back as given. */
  lemma UpdatedView(row: Row, u: UpdateInput)
    ensures var v := Present(Merge(row, BuildPatch(u)));
      && v.id == row.id && v.createdAt == row.createdAt
      && v.name == u.name.GetOr(row.name)
      && v.description == (if u.description.Some? then u.description else row.description)
      && (u.tags.None? ==> v.tags == FromCSV(row.tags))
      && (u.tags.Some? ==> v.tags == FromCSV(ToCSV(u.tags)))
      && (u.tags.Some? && CommaFree(u.tags.value) ==> v.tags == DropEmpty(TrimAll(u.tags.value)))
      && (u.tags.Some? && CleanTags(u.tags.value) ==> v.tags == u.tags.value)
  {
    if u.tags.Some? && CommaFree(u.tags.value) {
      DecodeCommaFree(u.tags.value);
    }
    if u.tags.Some? && CleanTags(u.tags.value) {
      RoundTrip(u.tags.value);
    }
  }

  /** What the create handler returns: the body's name and description, no
      tags when they are absent; supplied comma-free tags come back trimmed
      with the empty ones dropped, and clean tags as given. */
  lemma CreatedView(id: int, createdAt: int, x: CreateInput)
    ensures var v := Present(NewRow(id, createdAt, x));
      && v.id == id && v.createdAt == createdAt
      && v.name == x.name && v.description == x.description
      && (x.tags.None? ==> v.tags == [])
      && (x.tags.Some? ==> v.tags == FromCSV(ToCSV(x.tags)))
      && (x.tags.Some? && CommaFree(x.tags.value) ==> v.tags == DropEmpty(TrimAll(x.tags.value)))
      && (x.tags.Some? && CleanTags(x.tags.value) ==> v.tags == x.tags.value)
  {
    if x.tags.Some? && CommaFree(x.tags.value) {
      DecodeCommaFree(x.tags.value);
    }
    if x.tags.Some? && CleanTags(x.tags.value) {
      RoundTrip(x.tags.value);
    }
  }

  /** The worked update: setting only the description keeps the name. */
  lemma DescriptionOnlyUpdate(row: Row)
    requires row.name == "X"
    ensures var r := Merge(row, BuildPatch(UpdateInput(None, Some("new"), None)));
      r.name == "X" && r.description == Some("new") && r.tags == row.tags
  {
  }
}
