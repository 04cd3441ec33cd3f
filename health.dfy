/** The model-runner health check of app/main.py: the URL it probes and the
    classification of the probe's outcome. The HTTP GET itself is not modelled;
    its outcome is an input. */
module Health {
  import opened PyStrings

  /** The API-version path segment that the derivation strips. */
  const V1 := "/v1"
  /** The version segment written with a trailing slash, as in "http://x/v1/". */
  const V1Slash := "/v1/"
  /** The models-listing path appended to the stripped base. */
  const ModelsPath := "/v1/models"
  /** The default `BASE_URL` when the environment does not set one. */
  const DefaultBaseUrl := "http://model-runner:12434/v1"
  /** A base URL whose host name begins with the version segment. */
  const VersionedHostBaseUrl := "http://v1-runner:12434/v1"
  /** The prefix of every status string produced by a transport error. */
  const ErrorPrefix := "error: "
  /** The status held before any check has run. */
  const UnknownStatus := "unknown"

  /** The coloured marker shown next to the status. */
  datatype Indicator = Green | Red

  /** What the GET on the health URL produced: a response with a status code,
      or an exception raised by the HTTP client, with its message. */
  datatype ProbeOutcome = HttpStatus(code: int) | Raised(message: string)

  /** The pair `check_model_health` returns. */
  datatype Report = Report(status: string, indicator: Indicator)

  /** The health URL exactly as the code derives it: every "/v1" in the base is
      removed (Python's `str.replace` replaces all occurrences), then
      "/v1/models" is appended. */
  function HealthUrlAsWritten(base: string): (r: string)
    ensures EndsWith(r, ModelsPath)
    ensures |r| <= |base| + |ModelsPath|
  {
    ReplaceAll(base, V1, "") + ModelsPath
  }

  /** A base without the version segment keeps every character. */
  lemma UnversionedBaseKept(base: string)
    requires !Occurs(base, V1)
    ensures HealthUrlAsWritten(base) == base + ModelsPath
  {
    ReplaceWithoutOccurrence(base, V1, "");
  }

  /** The health URL as the derivation evidently intends it: only a trailing
      "/v1" (or "/v1/") is taken off, so the probe goes to the models listing
      under the same API root that the chat client is configured with. */
  function HealthUrl(base: string): (r: string)
    ensures EndsWith(r, ModelsPath)
    // a versioned base: the models listing right under it
    ensures EndsWith(base, V1) ==> r == base + "/models"
    // a versioned base with a trailing slash: the same listing, one slash
    ensures EndsWith(base, V1Slash) ==> r == base[..|base| - 1] + "/models"
    // an unversioned base: the versioned models listing under it
    ensures !EndsWith(base, V1) && !EndsWith(base, V1Slash) ==> r == base + ModelsPath
  {
    if EndsWith(base, V1) then
      // "/v1" and "/v1/" end differently, so at most one of them ends the base
      assert base[|base| - 1] == V1[|V1| - 1] != V1Slash[|V1Slash| - 1];
      base[..|base| - |V1|] + ModelsPath
    else if EndsWith(base, V1Slash) then base[..|base| - |V1Slash|] + ModelsPath
    else base + ModelsPath
  }

  /** The trailing slash after the version segment makes no difference to
      the intended health URL. */
  lemma TrailingSlashIgnored(p: string)
    ensures HealthUrl(p + V1Slash) == HealthUrl(p + V1)
  {
    var a, b := p + V1Slash, p + V1;
    assert a[|a| - |V1Slash|..] == V1Slash && a[..|a| - |V1Slash|] == p;
    assert b[|b| - |V1|..] == V1 && b[..|b| - |V1|] == p;
  }

  /** Maps the probe's outcome to a status string and an indicator:
      200 is healthy, any other code unhealthy, an exception an error. */
  function Classify(outcome: ProbeOutcome): (r: Report)
    ensures r.indicator == Green <==> outcome == HttpStatus(200)
    ensures r.status == "healthy" <==> outcome == HttpStatus(200)
    ensures outcome.HttpStatus? && outcome.code != 200 ==> r == Report("unhealthy", Red)
    ensures outcome.Raised? ==> r == Report(ErrorPrefix + outcome.message, Red)
    // after a check the sidebar always has something to show
    ensures r.status != UnknownStatus
  {
    match outcome
    case HttpStatus(code) =>
      if code == 200 then Report("healthy", Green) else Report("unhealthy", Red)
    case Raised(message) =>
      assert (ErrorPrefix + message)[0] == 'e';
      Report(ErrorPrefix + message, Red)
  }

  /** `check_model_health` with the GET replaced by `probe`. */
  function CheckModelHealth(base: string, probe: string -> ProbeOutcome): (r: Report)
    ensures r.status == "healthy" <==> probe(HealthUrlAsWritten(base)) == HttpStatus(200)
    ensures r.indicator == Green <==> r.status == "healthy"
  {
    Classify(probe(HealthUrlAsWritten(base)))
  }

  /** The status string alone tells the three outcomes apart, and an error
      status carries the exception's message unchanged. */
  lemma {:induction false} StatusDeterminesOutcomeKind(o1: ProbeOutcome, o2: ProbeOutcome)
    requires Classify(o1).status == Classify(o2).status
    ensures o1.Raised? <==> o2.Raised?
    ensures o1.Raised? ==> o1.message == o2.message
    ensures o1.HttpStatus? ==> (o1.code == 200 <==> o2.code == 200)
  {
    assert Classify(o1).status[0] == Classify(o2).status[0];
    if o1.Raised? && o2.Raised? {
      assert o1.message == Classify(o1).status[|ErrorPrefix|..];
      assert o2.message == Classify(o2).status[|ErrorPrefix|..];
    }
  }

  /** Removing "/v1" from a base in which it occurs only once, at the end,
      leaves exactly the part before it: no other character is touched. */
  lemma {:induction false} StripsOnlyTrailingV1(p: string)
    requires !Occurs(p, V1)
    ensures ReplaceAll(p + V1, V1, "") == p
    decreases |p|
  {
    var s := p + V1;
    if p == [] {
      assert s == V1 && V1 <= s && s[|V1|..] == [];
    } else {
      assert !(V1 <= s) by {
        if |p| >= 3 {
          assert s[..3] == p[..3];
        } else if |p| == 1 {
          assert s[1] == '/';
        } else {
          assert s[2] == '/';
        }
      }
      assert s[1..] == p[1..] + V1;
      StripsOnlyTrailingV1(p[1..]);
    }
  }

  /** Removing "/v1" from p + "/v1" + t, where p holds no "/v1", keeps p,
      drops that "/v1", and goes on with t. */
  lemma {:induction false} StripsFirstVersion(p: string, t: string)
    requires !Occurs(p, V1)
    ensures ReplaceAll(p + V1 + t, V1, "") == p + ReplaceAll(t, V1, "")
    decreases |p|
  {
    var s := p + V1 + t;
    if p == [] {
      assert s == V1 + t;
      DropVersion(t);
    } else {
      assert !(V1 <= s) by {
        if |p| >= 3 {
          assert s[..3] == p[..3];
        } else if |p| == 1 {
          assert s[1] == '/';
        } else {
          assert s[2] == '/';
        }
      }
      assert s[1..] == p[1..] + V1 + t;
      StripsFirstVersion(p[1..], t);
      ReplaceStep(s, V1, "");
      assert [p[0]] + p[1..] == p;
    }
  }

  /** A base p + "/v1/", where p holds no "/v1", is probed at
      p + "//v1/models", with the slash doubled, while the intended
      derivation probes p + "/v1/models". */
  lemma AsWrittenDoublesSlash(p: string)
    requires !Occurs(p, V1)
    ensures HealthUrlAsWritten(p + V1Slash) == p + "/" + ModelsPath
    ensures HealthUrl(p + V1Slash) == p + ModelsPath
    ensures HealthUrlAsWritten(p + V1Slash) != HealthUrl(p + V1Slash)
  {
    var base, slash := p + V1Slash, "/";
    assert base == p + V1 + slash;
    StripsFirstVersion(p, slash);
    assert !Occurs(slash, V1) by {
      assert !Occurs(slash[1..], V1);
    }
    ReplaceWithoutOccurrence(slash, V1, "");
    assert base[|base| - |V1Slash|..] == V1Slash && base[..|base| - |V1Slash|] == p;
  }

  /** When the base carries the version segment once and at its end, the
      derived URL is the base followed by "/models": the version is not
      duplicated. */
  lemma SingleTrailingVersionNotDuplicated(p: string)
    requires !Occurs(p, V1)
    ensures HealthUrlAsWritten(p + V1) == p + ModelsPath
  {
    StripsOnlyTrailingV1(p);
  }

  /** No character of `s` is a slash. */
  predicate NoSlash(s: string)
  {
    forall i :: 0 <= i < |s| ==> s[i] != '/'
  }

  /** Removing "/v1" from "/v1" leaves nothing. */
  lemma StripVersionAlone()
    ensures ReplaceAll(V1, V1, "") == ""
  {
    ReplaceMatch(V1, V1, "");
    assert V1[|V1|..] == [];
  }

  /** A slash not followed by "v1" is kept, and the scan goes on behind it. */
  lemma KeepSlash(x: string)
    requires !(V1[1..] <= x)
    ensures ReplaceAll("/" + x, V1, "") == "/" + ReplaceAll(x, V1, "")
  {
    var s := "/" + x;
    assert !(V1 <= s) by {
      if |x| >= 2 {
        assert s[1..3] == x[..2];
      }
    }
    ReplaceStep(s, V1, "");
    assert s[1..] == x;
  }

  /** A "/v1" at the scan position is dropped, and the scan goes on behind it. */
  lemma DropVersion(x: string)
    ensures ReplaceAll(V1 + x, V1, "") == ReplaceAll(x, V1, "")
  {
    ReplaceMatch(V1 + x, V1, "");
    assert (V1 + x)[|V1|..] == x;
  }

  /** A slash-free stretch followed by a final "/v1" loses just the "/v1". */
  lemma KeepSlashFreeThenDropVersion(a: string)
    requires NoSlash(a)
    ensures ReplaceAll(a + V1, V1, "") == a
  {
    ReplaceSkipsPrefix(a, V1, V1, "");
    StripVersionAlone();
  }

  /** A host that does not begin with "v1", followed by "/v1", does not
      begin with "v1" either. */
  lemma UnversionedHostThenVersion(host: string)
    requires !(V1[1..] <= host)
    ensures !(V1[1..] <= host + V1)
  {
    var x := host + V1;
    if |host| >= 2 {
      assert x[..2] == host[..2];
    } else if |host| == 1 {
      assert x[1] == '/';
    } else {
      assert x[0] == '/';
    }
  }

  /** Removing "/v1" from "//" + host + "/v1", where the host holds no slash
      and does not begin with "v1", leaves "//" + host. */
  lemma StripKeepsPlainHost(host: string)
    requires NoSlash(host) && !(V1[1..] <= host)
    ensures ReplaceAll("//" + host + V1, V1, "") == "//" + host
  {
    var x := host + V1;
    UnversionedHostThenVersion(host);
    KeepSlash(x);
    assert ("/" + x)[0] == '/';
    KeepSlash("/" + x);
    KeepSlashFreeThenDropVersion(host);
    assert "//" + host + V1 == "/" + ("/" + x);
  }

  /** Removing "/v1" from "//v1" + rest + "/v1", where the rest holds no slash,
      leaves "/" + rest: the leading "v1" of the host goes too. */
  lemma StripEatsVersionedHost(rest: string)
    requires NoSlash(rest)
    ensures ReplaceAll("//v1" + rest + V1, V1, "") == "/" + rest
  {
    var x := V1 + (rest + V1);
    assert x[0] == '/';
    KeepSlash(x);
    DropVersion(rest + V1);
    KeepSlashFreeThenDropVersion(rest);
    assert "//v1" + rest + V1 == "/" + x;
  }

  /** A base URL "<scheme>//<host>/v1" whose host does not begin with "v1" is
      probed at "<scheme>//<host>/v1/models": the version is not duplicated,
      and the intended derivation agrees. */
  lemma HostBaseUrlNotDuplicated(base: string, scheme: string, host: string)
    requires NoSlash(scheme) && NoSlash(host) && !(V1[1..] <= host)
    requires base == scheme + "//" + host + V1
    ensures HealthUrlAsWritten(base) == base + "/models"
    ensures HealthUrl(base) == HealthUrlAsWritten(base)
  {
    var tail := "//" + host + V1;
    var kept := scheme + ("//" + host);
    assert base == scheme + tail && base == kept + V1;
    StripKeepsPlainHost(host);
    ReplaceSkipsPrefix(scheme, tail, V1, "");
    assert kept + ModelsPath == base + "/models";
    assert base[|base| - |V1|..] == V1;
  }

  /** A base URL "<scheme>//v1<rest>/v1", a host whose name begins with "v1",
      is probed at "<scheme>/<rest>/v1/models": the host is mangled and the
      probe misses the models listing under the configured root, which the
      intended derivation reaches. */
  lemma AsWrittenManglesVersionedHost(base: string, scheme: string, rest: string)
    requires NoSlash(scheme) && NoSlash(rest)
    requires base == scheme + "//v1" + rest + V1
    ensures HealthUrlAsWritten(base) == scheme + "/" + rest + ModelsPath
    ensures HealthUrlAsWritten(base) != base + "/models"
    ensures HealthUrl(base) == base + "/models"
  {
    var tail := "//v1" + rest + V1;
    var mangled := scheme + ("/" + rest);
    assert base == scheme + tail;
    StripEatsVersionedHost(rest);
    ReplaceSkipsPrefix(scheme, tail, V1, "");
    assert ReplaceAll(base, V1, "") == mangled;
    assert |mangled| + 3 < |base|;
    assert mangled + ModelsPath == scheme + "/" + rest + ModelsPath;
    assert base[|base| - |V1|..] == V1;
  }

  /** The default base "http://model-runner:12434/v1" is probed at the base
      followed by "/models", "http://model-runner:12434/v1/models", and the
      intended derivation agrees. */
  lemma DefaultHealthUrl(base: string)
    requires base == DefaultBaseUrl
    ensures HealthUrlAsWritten(base) == base + "/models"
    ensures HealthUrl(base) == HealthUrlAsWritten(base)
  {
    var host := "model-runner:12434";
    assert base == "http:" + "//" + host + V1;
    assert host[0] != V1[1];
    HostBaseUrlNotDuplicated(base, "http:", host);
  }

  /** The base "http://v1-runner:12434/v1" is probed at
      "http:/-runner:12434/v1/models" instead of the intended
      "http://v1-runner:12434/v1/models". */
  lemma VersionedHostExample(base: string)
    requires base == VersionedHostBaseUrl
    ensures HealthUrlAsWritten(base) == "http:" + "/" + "-runner:12434" + ModelsPath
    ensures HealthUrl(base) == base + "/models"
  {
    assert base == "http:" + "//v1" + "-runner:12434" + V1;
    AsWrittenManglesVersionedHost(base, "http:", "-runner:12434");
  }

  /** Python's `str.replace` never rescans what it produced: removing "/v1"
      from "//v1v1" leaves "/v1", so "/v1" can survive the stripping. */
  lemma RemovalCanLeaveV1()
    ensures ReplaceAll("//v1v1", V1, "") == V1
    ensures Occurs(ReplaceAll("//v1v1", V1, ""), V1)
  {
    var x := V1 + "v1";
    assert x[0] == '/';
    KeepSlash(x);
    DropVersion("v1");
    ReplaceSkipsPrefix("v1", [], V1, "");
    assert "//v1v1" == "/" + x && "v1" + [] == "v1";
    assert V1 <= V1;
  }

  /** The intended derivation and the code agree on every base in which "/v1"
      occurs at most once, and then only at the end. */
  lemma {:induction false} IntendedAgreesWithAsWritten(base: string)
    requires !Occurs(base, V1) || (EndsWith(base, V1) && !Occurs(base[..|base| - |V1|], V1))
    ensures HealthUrl(base) == HealthUrlAsWritten(base)
  {
    if EndsWith(base, V1) {
      var p := base[..|base| - |V1|];
      if !Occurs(base, V1) {
        EndsWithOccurs(base, V1);
      }
      assert base == p + V1;
      SingleTrailingVersionNotDuplicated(p);
    } else {
      if EndsWith(base, V1Slash) {
        VersionSlashOccurs(base);
      }
      UnversionedBaseKept(base);
    }
  }

  /** Where the two derivations agree, the check as written reports exactly
      what a check of the intended URL would report. */
  lemma CheckAgreesWithIntended(base: string, probe: string -> ProbeOutcome)
    requires !Occurs(base, V1) || (EndsWith(base, V1) && !Occurs(base[..|base| - |V1|], V1))
    ensures CheckModelHealth(base, probe) == Classify(probe(HealthUrl(base)))
  {
    IntendedAgreesWithAsWritten(base);
  }

  /** A base ending in "/v1/" contains "/v1". */
  lemma VersionSlashOccurs(base: string)
    requires EndsWith(base, V1Slash)
    ensures Occurs(base, V1)
  {
    var i := |base| - |V1Slash|;
    assert base[i..i + |V1|] == base[i..][..|V1|] == V1Slash[..|V1|] == V1;
    assert OccursAt(base, V1, i);
    OccursIffWindow(base, V1);
  }
}
