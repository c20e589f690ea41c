/** The cases of the tests in src/parse/uri.rs. */
module UriExamples {
  import opened Wrappers
  import opened Nom
  import opened Utils
  import opened Resource
  import opened Levels
  import opened Errors
  import opened Query
  import Schemes
  import Versions
  import opened SchemeParser
  import opened LevelParser
  import opened ContainerName
  import opened Hashkey
  import opened AssetModels
  import opened Uri
  import opened UriProperties

  /** The asset every test describes, with its version, key and flag. */
  function BobModel(version: Option<Versions.Version>, key: Option<string>, create: bool): AssetModel {
    AssetModel(Schemes.Asset, LevelOwned.Show("dev01"), "bob", "model", "hi", "maya_model", version, key, create)
  }

  lemma BobModelValid(version: Option<Versions.Version>, key: Option<string>, create: bool)
    requires version.Some? ==> !version.value.Number?
    requires key == None || key == Some("main")
    ensures ValidModel(BobModel(version, key, create))
  {
  }

  /** The path of every test, as parsed. */
  function BobPath(): Path {
    Path(Level.Show("dev01"), "bob", "model", "hi", "maya_model")
  }

  /** The scheme and level every test starts with. */
  const Dev01: string := "asset://dev01/"

  /** The scheme and path every test starts with. */
  const BobUri: string := "asset://dev01/bob/model/hi/maya_model"

  /** After the scheme, `dev01` and its `/`: whatever comes next. */
  lemma Dev01Text(t: string)
    ensures Schemes.Name(Schemes.Asset) + "://" + (ToString(LevelOwned.Show("dev01")) + "/" + t) == Dev01 + t
  {
    assert Schemes.Name(Schemes.Asset) + "://" == "asset://";
    assert ToString(LevelOwned.Show("dev01")) + "/" == "dev01/";
    ConcatAssoc("asset://", "dev01/", t);
    assert "asset://" + "dev01/" == Dev01;
  }

  lemma Slashes(b: string, c: string, d: string, e: string, t: string)
    ensures b + "/" + (c + "/" + (d + "/" + (e + t))) == (b + "/" + c + "/" + d + "/" + e) + t
  {
  }

  lemma BobFoldersText()
    ensures "bob" + "/" + "model" + "/" + "hi" + "/" + "maya_model" == "bob/model/hi/maya_model"
  {
  }

  lemma BobUriSplit()
    ensures Dev01 + "bob/model/hi/maya_model" == BobUri
  {
  }

  /** The text of the tests' scheme and path, then `t`. */
  lemma BobUriText(t: string)
    ensures Schemes.Name(Schemes.Asset) + "://" + PathThen(BobPath(), t) == BobUri + t
  {
    var f := "bob" + "/" + ("model" + "/" + ("hi" + "/" + ("maya_model" + t)));
    Slashes("bob", "model", "hi", "maya_model", t);
    BobFoldersText();
    assert PathThen(BobPath(), t) == ToString(LevelOwned.Show("dev01")) + "/" + f;
    Dev01Text(f);
    ConcatAssoc(Dev01, "bob/model/hi/maya_model", t);
    BobUriSplit();
  }

  /** The canonical URI of the test asset: its scheme and path, then the
      query and key text. */
  lemma BobRender(version: Option<Versions.Version>, key: Option<string>, create: bool)
    requires version.Some? ==> !version.value.Number?
    ensures var g := SegmentsOf(BobModel(version, key, create));
      Render(BobModel(version, key, create)) == BobUri + (OptQueryText(g.query) + OptKeyText(g.key))
  {
    var g := SegmentsOf(BobModel(version, key, create));
    assert g.path == BobPath();
    BobUriText(OptQueryText(g.query) + OptKeyText(g.key));
  }

  lemma CurrentQueryText()
    ensures QueryText([QueryPair("version", "current")]) == "?version=current"
  {
    assert [QueryPair("version", "current")][1..] == [];
  }

  lemma CurrentCreateQueryText()
    ensures QueryText([QueryPair("version", "current"), QueryPair("create", "true")])
      == "?version=current&create=true"
  {
    var ps := [QueryPair("version", "current"), QueryPair("create", "true")];
    assert ps[1..] == [QueryPair("create", "true")];
    assert ps[1..][1..] == [];
  }

  lemma CurrentCreatePairs()
    ensures CanonicalPairs(BobModel(Some(Versions.Current), Some("main"), true))
      == [QueryPair("version", "current"), QueryPair("create", "true")]
  {
  }

  /** The canonical URIs of the test models, spelled out. */
  lemma VersionAndKeyText()
    ensures Render(BobModel(Some(Versions.Current), Some("main"), false)) == BobUri + "?version=current#main"
  {
    var m := BobModel(Some(Versions.Current), Some("main"), false);
    BobRender(m.version, m.key, m.createMissing);
    assert CanonicalPairs(m) == [QueryPair("version", "current")];
    CurrentQueryText();
    assert "?version=current" + "#main" == "?version=current#main";
  }

  lemma CurrentCreateTail()
    ensures OptQueryText(Some([QueryPair("version", "current"), QueryPair("create", "true")])) + OptKeyText(Some("main"))
      == "?version=current&create=true#main"
  {
    CurrentCreateQueryText();
    assert "?version=current&create=true" + "#main" == "?version=current&create=true#main";
  }

  lemma VersionKeyAndCreateText()
    ensures Render(BobModel(Some(Versions.Current), Some("main"), true))
      == BobUri + "?version=current&create=true#main"
  {
    var m := BobModel(Some(Versions.Current), Some("main"), true);
    BobRender(m.version, m.key, m.createMissing);
    CurrentCreatePairs();
    CurrentCreateTail();
  }

  lemma VersionNoKeyText()
    ensures Render(BobModel(Some(Versions.Current), None, false)) == BobUri + "?version=current"
  {
    var m := BobModel(Some(Versions.Current), None, false);
    BobRender(m.version, m.key, m.createMissing);
    assert CanonicalPairs(m) == [QueryPair("version", "current")];
    CurrentQueryText();
    assert "?version=current" + "" == "?version=current";
  }

  lemma NoVersionNoKeyText()
    ensures Render(BobModel(None, None, false)) == BobUri
  {
    var m := BobModel(None, None, false);
    BobRender(m.version, m.key, m.createMissing);
    assert CanonicalPairs(m) == [];
    assert BobUri + ("" + "") == BobUri;
  }

  /** The tests' URIs with a keyword version, a key and the create flag in
      their combinations: each parses to the test's model. */
  lemma VersionAndKeyExample()
    ensures ParseUri(BobUri + "?version=current#main")
      == Success(BobModel(Some(Versions.Current), Some("main"), false))
  {
    var m := BobModel(Some(Versions.Current), Some("main"), false);
    VersionAndKeyText();
    BobModelValid(m.version, m.key, m.createMissing);
    UriRoundTrip(m);
  }

  lemma VersionKeyAndCreateExample()
    ensures ParseUri(BobUri + "?version=current&create=true#main")
      == Success(BobModel(Some(Versions.Current), Some("main"), true))
  {
    var m := BobModel(Some(Versions.Current), Some("main"), true);
    VersionKeyAndCreateText();
    BobModelValid(m.version, m.key, m.createMissing);
    UriRoundTrip(m);
  }

  lemma VersionNoKeyExample()
    ensures ParseUri(BobUri + "?version=current") == Success(BobModel(Some(Versions.Current), None, false))
  {
    var m := BobModel(Some(Versions.Current), None, false);
    VersionNoKeyText();
    BobModelValid(m.version, m.key, m.createMissing);
    UriRoundTrip(m);
  }

  lemma NoVersionNoKeyExample()
    ensures ParseUri(BobUri) == Success(BobModel(None, None, false))
  {
    var m := BobModel(None, None, false);
    NoVersionNoKeyText();
    BobModelValid(m.version, m.key, m.createMissing);
    UriRoundTrip(m);
  }

  /** `assetf://` matches `asset` and then lacks `://`: the nom error is
      reported as it is. */
  lemma BadSchemeExample()
    ensures ParseUri("asset" + "f://dev01/bob/model/hi/maya_model")
      == Failure(UriParsingError("f://dev01/bob/model/hi/maya_model", Tag))
  {
    var t := "f://dev01/bob/model/hi/maya_model";
    assert !("://" <= t) by {
      assert t[0] == 'f';
    }
    SchemeNeedsSeparator(Schemes.Asset, t);
    assert Schemes.Name(Schemes.Asset) == "asset";
    UriSchemeError("asset" + t, t);
  }

  /** The tail of the numeric-version test is not a query: its value `1`
      does not start with a letter. */
  lemma NumericTailNotQuery()
    ensures ParseQuery("?version=1#main") == Err("1#main", Alpha)
  {
    assert "?" + "version" + "=" + "1#main" == "?version=1#main";
    NonLetterValue("version", "1#main");
  }

  /** Nor is it a key: it does not start with `#`. */
  lemma NumericTailNotKey()
    ensures ParseHashtag("?version=1#main") == Err("?version=1#main", Tag)
  {
    var t := "?version=1#main";
    assert !("#" <= t) by {
      assert t[0] == '?';
    }
  }

  /** The tail of the numeric-version test is neither a query nor a key. */
  lemma NumericVersionTail()
    ensures ParseQuery("?version=1#main").Err? && ParseHashtag("?version=1#main").Err?
  {
    NumericTailNotQuery();
    NumericTailNotKey();
  }

  /** The tests' scheme and path parse, leaving `t`. */
  lemma BobUriParses(t: string)
    requires Delimits(Body, t)
    ensures ParseScheme(BobUri + t) == Ok(PathThen(BobPath(), t), Schemes.Asset)
    ensures ParsePath(PathThen(BobPath(), t)) == Ok(t, BobPath())
  {
    BobUriText(t);
    SchemeRoundTrip(Schemes.Asset, PathThen(BobPath(), t));
    assert ValidPath(BobPath()) by {
      BobModelValid(None, None, false);
    }
    PathRoundTrip(BobPath(), t);
  }

  /** A numeric version is not a resource, so the query is skipped and the
      text from `?` on is left over: the parse fails with `Eof`. */
  lemma NumericVersionExample()
    ensures ParseUri(BobUri + "?version=1#main") == Failure(UriParsingError("?version=1#main", Eof))
  {
    var t := "?version=1#main";
    assert ByteOf(t[0]) == 0x3F;
    BobUriParses(t);
    NumericVersionTail();
    UriTailLeftOver(BobUri + t, PathThen(BobPath(), t), Schemes.Asset, t, BobPath());
  }
}
