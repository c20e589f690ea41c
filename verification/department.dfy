/** src/parse/department.rs: a department is a name closed by `/`. */
module Department {
  import opened Nom
  import opened ContainerName

  /** `parse_department` */
  function ParseDepartment(s: string): (r: IResult<string>)
    ensures SuffixOf(r.rest, s)
    ensures r.Ok? ==> r.value + "/" + r.rest == s && IsName(r.value)
    ensures r == Err(s, Alpha) <==> s == [] || !Utils.IsAsciiAlpha(s[0])
    ensures r.Err? && r.kind == Verify ==> r.rest == s[Utils.RunLength(Utils.Letter, s)..] && r.rest != []
    ensures r.Ok? <==> ParseNameNoslash(s).Ok? && "/" <= ParseNameNoslash(s).rest
    ensures r.Err? ==> r.kind == Alpha || r.kind == Verify || r.kind == Tag
    ensures r.Err? && r.kind == Tag ==> r.rest == ParseNameNoslash(s).rest
  {
    ParseName(s)
  }

  /** A name and its `/` are consumed, leaving exactly what follows. */
  lemma DepartmentConcat(x: string, t: string)
    requires IsName(x)
    ensures ParseDepartment(x + "/" + t) == Ok(t, x)
  {
    NameSlashConcat(x, t);
  }
}
