/** src/parse/snapshot_type.rs: the snapshot type is the last path segment,
    a name with no closing `/`. */
module SnapshotType {
  import opened Nom
  import opened Utils
  import opened ContainerName

  /** `parse_snapshot_type` */
  function ParseSnapshotType(s: string): (r: IResult<string>)
    ensures SuffixOf(r.rest, s)
    ensures r.Ok? ==> r.value + r.rest == s && IsName(r.value) && Delimits(Body, r.rest)
    ensures r == Err(s, Alpha) <==> s == [] || !IsAsciiAlpha(s[0])
    ensures r.Err? ==> r.kind == Alpha || r.kind == Verify
    ensures r.Err? && r.kind == Verify ==> r.rest == s[RunLength(Letter, s)..] && r.rest != []
  {
    ParseNameNoslash(s)
  }

  /** A name followed by a char that cannot continue it parses as exactly
      that name. */
  lemma SnapshotTypeConcat(x: string, t: string)
    requires IsName(x) && Delimits(Body, t)
    ensures ParseSnapshotType(x + t) == Ok(t, x)
  {
    NameConcat(x, t);
  }
}
