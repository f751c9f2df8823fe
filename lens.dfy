/**
 * Importing and publishing a custom lens, and looking a lens up by name (wafr/lens.py).
 * The published lenses (list_lenses) and the lens file's content are inputs.
 */
module Lens {
  import opened Wrappers
  import opened Gateway

  /** A lens file: its "name" key, which may be absent, and the JSON text the file holds. */
  datatype LensFile = LensFile(name: Option<string>, json: string)

  /** Index of the first published lens called `lensName`. */
  predicate FirstNamed(lenses: seq<LensSummary>, lensName: string, i: int)
  {
    0 <= i < |lenses| && lenses[i].lensName == lensName
    && forall j :: 0 <= j < i ==> lenses[j].lensName != lensName
  }

  /** The ARN of the first published lens called `lensName`, which the tool uses as that lens's alias. */
  function FirstLensArn(lenses: seq<LensSummary>, lensName: string): (alias: Option<string>)
    ensures alias.None? <==> forall i :: 0 <= i < |lenses| ==> lenses[i].lensName != lensName
    ensures alias.Some? ==> exists i :: FirstNamed(lenses, lensName, i) && alias.value == lenses[i].lensArn
  {
    if lenses == [] then None
    else if lenses[0].lensName == lensName then
      assert FirstNamed(lenses, lensName, 0);
      Some(lenses[0].lensArn)
    else
      var rest := FirstLensArn(lenses[1..], lensName);
      if rest.Some? then
        var i :| FirstNamed(lenses[1..], lensName, i) && rest.value == lenses[1..][i].lensArn;
        assert FirstNamed(lenses, lensName, i + 1);
        rest
      else
        rest
  }

  /** get_lens_alias: scans the published lenses in order and stops at the first with that name. */
  method GetLensAlias(lenses: seq<LensSummary>, lensName: string) returns (alias: Option<string>)
    ensures alias == FirstLensArn(lenses, lensName)
  {
    for i := 0 to |lenses|
      invariant FirstLensArn(lenses, lensName) == FirstLensArn(lenses[i..], lensName)
    {
      if lenses[i].lensName == lensName {
        return Some(lenses[i].lensArn);
      }
      assert lenses[i..][1..] == lenses[i + 1..];
    }
    return None;
  }

  /** get_lens_name: the lens file's "name" key. */
  function GetLensName(f: LensFile): Result<string>
  {
    if f.name.None? then Err(MissingKey("name")) else Ok(f.name.value)
  }

  /**
   * What import_lens sends and returns. A lens already published under the file's name is
   * re-imported under its alias, which is returned; otherwise the lens is imported without an
   * alias and the ARN the service assigns, `assignedArn`, is returned.
   */
  function ImportRun(f: LensFile, lenses: seq<LensSummary>): Result<Call>
  {
    match GetLensName(f)
    case Err(e) => Err(e)
    case Ok(name) =>
      var alias := FirstLensArn(lenses, name);
      if Truthy(alias) then Ok(Call.ImportLens(alias, f.json)) else Ok(Call.ImportLens(None, f.json))
  }

  function ImportedAlias(f: LensFile, lenses: seq<LensSummary>, assignedArn: string): Result<string>
  {
    match GetLensName(f)
    case Err(e) => Err(e)
    case Ok(name) =>
      var alias := FirstLensArn(lenses, name);
      if Truthy(alias) then Ok(alias.value) else Ok(assignedArn)
  }

  /** import_lens. */
  method ImportLens(client: Client, f: LensFile, lenses: seq<LensSummary>, assignedArn: string)
    returns (r: Result<string>)
    modifies client
    ensures ImportRun(f, lenses).Ok? ==> client.calls == old(client.calls) + [ImportRun(f, lenses).value]
    ensures ImportRun(f, lenses).Err? ==> client.calls == old(client.calls)
    ensures r == ImportedAlias(f, lenses, assignedArn)
  {
    var name := GetLensName(f);
    if name.Err? {
      return Err(name.error);
    }
    var alias := GetLensAlias(lenses, name.value);
    if Truthy(alias) {
      client.ImportLens(alias, f.json);
      r := Ok(alias.value);
    } else {
      client.ImportLens(None, f.json);
      r := Ok(assignedArn);
    }
  }

  /** publish_lens: import the lens, then create a version of it under the alias the import gave. */
  method PublishLens(client: Client, f: LensFile, lenses: seq<LensSummary>, assignedArn: string, lensVersion: string)
    returns (failure: Option<Error>)
    modifies client
    ensures ImportRun(f, lenses).Ok? ==>
              client.calls == old(client.calls) + [ImportRun(f, lenses).value,
                                                   Call.CreateLensVersion(ImportedAlias(f, lenses, assignedArn).value, lensVersion)]
              && failure.None?
    ensures ImportRun(f, lenses).Err? ==>
              client.calls == old(client.calls) && failure == Some(ImportRun(f, lenses).error)
  {
    var alias := ImportLens(client, f, lenses, assignedArn);
    if alias.Err? {
      return Some(alias.error);
    }
    client.CreateLensVersion(alias.value, lensVersion);
    failure := None;
  }

  // ----- Properties -----

  /** The import fails exactly when the file has no name, and then the alias is missing too. */
  lemma ImportFailsOnlyWithoutName(f: LensFile, lenses: seq<LensSummary>, assignedArn: string)
    ensures ImportRun(f, lenses).Err? <==> f.name.None?
    ensures ImportRun(f, lenses).Err? ==> ImportRun(f, lenses).error == MissingKey("name")
    ensures ImportRun(f, lenses).Err? <==> ImportedAlias(f, lenses, assignedArn).Err?
  {
  }

  /**
   * A lens published under the file's name (with a non-empty ARN) is re-imported under that ARN and
   * keeps it; a lens that is not found is imported anew and gets the ARN the service assigns.
   */
  lemma ImportKeepsExistingAlias(f: LensFile, lenses: seq<LensSummary>, assignedArn: string, i: nat)
    requires f.name.Some? && FirstNamed(lenses, f.name.value, i) && lenses[i].lensArn != ""
    ensures ImportRun(f, lenses) == Ok(Call.ImportLens(Some(lenses[i].lensArn), f.json))
    ensures ImportedAlias(f, lenses, assignedArn) == Ok(lenses[i].lensArn)
  {
    FirstNamedUnique(lenses, f.name.value, i);
  }

  lemma ImportNewLens(f: LensFile, lenses: seq<LensSummary>, assignedArn: string)
    requires f.name.Some? && forall i :: 0 <= i < |lenses| ==> lenses[i].lensName != f.name.value
    ensures ImportRun(f, lenses) == Ok(Call.ImportLens(None, f.json))
    ensures ImportedAlias(f, lenses, assignedArn) == Ok(assignedArn)
  {
  }

  /** There is only one first lens with a given name. */
  lemma FirstNamedUnique(lenses: seq<LensSummary>, lensName: string, i: int)
    requires FirstNamed(lenses, lensName, i)
    ensures FirstLensArn(lenses, lensName) == Some(lenses[i].lensArn)
  {
    var alias := FirstLensArn(lenses, lensName);
    assert alias.Some?;
    var k :| FirstNamed(lenses, lensName, k) && alias.value == lenses[k].lensArn;
    assert k == i;
  }
}
