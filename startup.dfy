/** Start-up: the environment check of `check_env` and the `BASE_URL`
    rewrite performed when the module is imported. */
module Startup {
  import opened Failures
  import opened Text

  /** The variables `check_env` demands, in the order it checks them. */
  const RequiredVariables: seq<string> := [
    "QBITTORRENT_URL",
    "QBITTORRENT_USERNAME",
    "QBITTORRENT_PASSWORD",
    "QBITTORRENT_DONE_TAG",
    "NEXTCLOUD_USER",
    "NEXTCLOUD_REL_PATH",
    "NEXTCLOUD_CONTAINER_NAME"
  ]

  /** `str(os.environ.get(name))`: a missing variable reads as the text "None". */
  function Setting(environ: map<string, string>, name: string): string {
    if name in environ then environ[name] else "None"
  }

  /** The first name of `names` that `environ` lacks, if any. */
  function FirstMissing(names: seq<string>, environ: map<string, string>): (r: Option<string>)
    ensures r.None? <==> forall i :: 0 <= i < |names| ==> names[i] in environ
    ensures r.Some? ==>
      exists i :: 0 <= i < |names| && names[i] == r.value && r.value !in environ &&
        forall j :: 0 <= j < i ==> names[j] in environ
  {
    if names == [] then None
    else if names[0] !in environ then Some(names[0])
    else
      var rest := FirstMissing(names[1..], environ);
      if rest.Some? then
        var k :| 0 <= k < |names| - 1 && names[1..][k] == rest.value && rest.value !in environ &&
          forall j :: 0 <= j < k ==> names[1..][j] in environ;
        assert names[k + 1] == rest.value;
        assert forall j :: 0 <= j < k + 1 ==> names[j] in environ by {
          forall j | 0 <= j < k + 1 ensures names[j] in environ {
            if j > 0 { assert names[j] == names[1..][j - 1]; }
          }
        }
        rest
      else
        assert forall i :: 0 <= i < |names| ==> names[i] in environ by {
          forall i | 0 <= i < |names| ensures names[i] in environ {
            if i > 0 { assert names[i] == names[1..][i - 1]; }
          }
        }
        rest
  }

  /** `check_env`: the loop over the required names, then the probe
      `requests.get(BASE_URL)` whose status is `probeStatus`. `probed` says
      whether the probe request is issued at all. */
  method CheckEnv(environ: map<string, string>, probeStatus: int) returns (out: Outcome, probed: bool)
    ensures probed <==> forall i :: 0 <= i < |RequiredVariables| ==> RequiredVariables[i] in environ
    ensures !probed ==> out == Fail(MissingVariable(FirstMissing(RequiredVariables, environ).value))
    ensures probed ==> out == (if probeStatus != 200 then Fail(ProbeFailed) else Pass)
  {
    for i := 0 to |RequiredVariables|
      invariant forall j :: 0 <= j < i ==> RequiredVariables[j] in environ
    {
      if RequiredVariables[i] !in environ {
        ghost var m := FirstMissing(RequiredVariables, environ);
        assert m.Some?;
        return Fail(MissingVariable(RequiredVariables[i])), false;
      }
    }
    probed := true;
    if probeStatus != 200 {
      return Fail(ProbeFailed), probed;
    }
    out := Pass;
  }

  /** A URL cannot start with both schemes: the characters at index 4 differ. */
  lemma SchemeGuardAlwaysTrue(raw: string)
    ensures !StartsWith(raw, "http://") || !StartsWith(raw, "https://")
  {
    if |raw| > 4 {
      assert StartsWith(raw, "http://") ==> raw[4] == ':';
      assert StartsWith(raw, "https://") ==> raw[4] == 's';
    }
  }

  /** The `BASE_URL` rewrite as written: the guard `not startswith("http://") or
      not startswith("https://")` holds for every string, so "http://" is
      always prepended, even to a URL that already has a scheme. */
  function BaseUrl(raw: string): (url: string)
    ensures url == "http://" + raw
  {
    SchemeGuardAlwaysTrue(raw);
    if !StartsWith(raw, "http://") || !StartsWith(raw, "https://") then "http://" + raw else raw
  }

  /** The rewrite the warning message describes: add "http://" only when no
      scheme is given. */
  function IntendedBaseUrl(raw: string): (url: string)
    ensures StartsWith(raw, "http://") || StartsWith(raw, "https://") ==> url == raw
    ensures !StartsWith(raw, "http://") && !StartsWith(raw, "https://") ==> url == "http://" + raw
    ensures StartsWith(url, "http://") || StartsWith(url, "https://")
  {
    if !StartsWith(raw, "http://") && !StartsWith(raw, "https://") then "http://" + raw else raw
  }

  /** A configured https URL is turned into an http URL whose host part is "https". */
  lemma HttpsUrlIsMangled()
    ensures BaseUrl("https://qb:8080") == "http://https://qb:8080"
    ensures IntendedBaseUrl("https://qb:8080") == "https://qb:8080"
    ensures BaseUrl("https://qb:8080") != IntendedBaseUrl("https://qb:8080")
  {
    assert StartsWith("https://qb:8080", "https://");
    assert |BaseUrl("https://qb:8080")| != |"https://qb:8080"|;
  }
}
