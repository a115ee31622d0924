/**
 Version stamps on local asset references. Stamping keeps path and fragment, but the
 stamp it writes swallows the first remaining query parameter when it is read back, so
 re-stamping loses one parameter at a time and settles only when none is left.
 */
module AssetStamping {
  import opened Text

  // --------------------------------------------------------------- taking texts apart

  predicate Free(s: string, c: char)
  {
    forall i :: 0 <= i < |s| ==> s[i] != c
  }

  /** Where the path ends: at the first `?` or `#`. */
  function RawEnd(ref: string): (n: nat)
    ensures n <= |ref|
    ensures forall i :: 0 <= i < n ==> ref[i] != '?' && ref[i] != '#'
    ensures n < |ref| ==> ref[n] == '?' || ref[n] == '#'
  {
    if ref == "" || ref[0] == '?' || ref[0] == '#' then 0 else 1 + RawEnd(ref[1..])
  }

  /** Where the first `#` is. */
  function HashAt(s: string): (n: nat)
    ensures n <= |s|
    ensures Free(s[..n], '#')
    ensures n < |s| ==> s[n] == '#'
  {
    if s == "" || s[0] == '#' then 0 else 1 + HashAt(s[1..])
  }

  function Raw(ref: string): string
  {
    ref[..RawEnd(ref)]
  }

  function Tail(ref: string): string
  {
    ref[RawEnd(ref)..]
  }

  /** `s.split("&")`. */
  function Split(s: string): (r: seq<string>)
    ensures r != []
  {
    if s == "" then [""]
    else
      var rest := Split(s[1..]);
      if s[0] == '&' then [""] + rest else [[s[0]] + rest[0]] + rest[1..]
  }

  /** `"&".join(ps)`. */
  function Join(ps: seq<string>): string
  {
    if ps == [] then "" else if |ps| == 1 then ps[0] else ps[0] + "&" + Join(ps[1..])
  }

  predicate Keep(p: string)
  {
    p != "" && !("v=" <= p)
  }

  function Kept(ps: seq<string>): (r: seq<string>)
    ensures forall p :: p in r ==> p in ps && Keep(p)
  {
    if ps == [] then []
    else
      assert ps == [ps[0]] + ps[1..];
      (if Keep(ps[0]) then [ps[0]] else []) + Kept(ps[1..])
  }

  /** The query of a tail, without the question mark. */
  function Body(tail: string): string
  {
    if tail == "" || tail[0] == '#' then "" else tail[1..][..HashAt(tail[1..])]
  }

  /** The fragment of a tail, with its `#`. */
  function Fragment(tail: string): (f: string)
    ensures f == "" || f[0] == '#'
  {
    if tail == "" then "" else if tail[0] == '#' then tail else tail[1..][HashAt(tail[1..])..]
  }

  /** The query parameters of a reference other than `v=`. */
  function Others(ref: string): seq<string>
  {
    Kept(Split(Body(Tail(ref))))
  }

  function Query(ps: seq<string>): string
  {
    if ps == [] then "" else "?" + Join(ps)
  }

  /** `_strip_version`. */
  function StripVersion(tail: string): string
  {
    if tail == "" then ""
    else if tail[0] == '#' then tail
    else
      var n := HashAt(tail[1..]);
      var body, frag := tail[1..][..n], tail[1..][n..];
      Query(Kept(Split(body))) + frag
  }

  // -------------------------------------------------------------------- one reference

  /** What a path leads to, as far as stamping cares. */
  datatype Target = NotAnAsset | Missing | Asset(version: string)

  datatype Verdict = Skip | MissingFile | Stamped

  /** ASCII white space only; any other blank path has no asset suffix to resolve. */
  predicate Blank(s: string)
  {
    forall i :: 0 <= i < |s| ==> s[i] == ' ' || s[i] == '\t' || s[i] == '\n' || s[i] == '\r'
  }

  predicate External(ref: string)
  {
    || "http://" <= ref || "https://" <= ref || "//" <= ref || "data:" <= ref || "#" <= ref
    || "mailto:" <= ref || "javascript:" <= ref || "blob:" <= ref || "tel:" <= ref
  }

  function WithVersion(raw: string, version: string, rest: string): string
  {
    raw + "?v=" + version + rest
  }

  /** `stamp_reference`; `resolve` stands for the file system below the base directory. */
  function StampReference(ref: string, resolve: string -> Target): (string, Verdict)
  {
    if Blank(ref) || External(ref) then (ref, Skip)
    else
      match resolve(Raw(ref))
      case NotAnAsset => (ref, Skip)
      case Missing => (Raw(ref) + Tail(ref), MissingFile)
      case Asset(version) => (WithVersion(Raw(ref), version, StripVersion(Tail(ref))), Stamped)
  }

  function Restamp(ref: string, resolve: string -> Target): string
  {
    StampReference(ref, resolve).0
  }

  /** Versions are digest prefixes. */
  ghost predicate HexVersions(resolve: string -> Target)
  {
    forall raw :: resolve(raw).Asset? ==> forall i :: 0 <= i < |resolve(raw).version| ==> IsHexDigit(resolve(raw).version[i])
  }

  predicate Eligible(ref: string, resolve: string -> Target)
  {
    !Blank(ref) && !External(ref) && resolve(Raw(ref)).Asset?
  }

  /** References that lead elsewhere are left alone, by how they begin. */
  lemma ExternalLeftAlone(rest: string, resolve: string -> Target)
    ensures StampReference("http://" + rest, resolve) == ("http://" + rest, Skip)
    ensures StampReference("https://" + rest, resolve) == ("https://" + rest, Skip)
    ensures StampReference("//" + rest, resolve) == ("//" + rest, Skip)
    ensures StampReference("data:" + rest, resolve) == ("data:" + rest, Skip)
    ensures StampReference("#" + rest, resolve) == ("#" + rest, Skip)
    ensures StampReference("mailto:" + rest, resolve) == ("mailto:" + rest, Skip)
    ensures StampReference("javascript:" + rest, resolve) == ("javascript:" + rest, Skip)
    ensures StampReference("blob:" + rest, resolve) == ("blob:" + rest, Skip)
    ensures StampReference("tel:" + rest, resolve) == ("tel:" + rest, Skip)
  {
    hide Blank, Raw, Tail, StripVersion, WithVersion;
  }

  /**
   Whatever a reference leads to, only an existing asset changes it, and the verdict says
   which case it was.
   */
  lemma VerdictExactly(ref: string, resolve: string -> Target)
    ensures var (text, why) := StampReference(ref, resolve);
            && (why == Stamped <==> !Blank(ref) && !External(ref) && resolve(Raw(ref)).Asset?)
            && (why == MissingFile <==> !Blank(ref) && !External(ref) && resolve(Raw(ref)).Missing?)
            && (why != Stamped ==> text == ref)
            && (ref == "" ==> why == Skip)
  {
    hide Blank, External, StripVersion, WithVersion;
    RawIsPlain(ref);
    BlankNothing();
  }

  lemma BlankNothing()
    ensures Blank("")
  {
  }

  // ---------------------------------------------------------------- split and join

  lemma {:induction false} SplitAt(x: string, y: string)
    requires Free(x, '&')
    ensures Split(x + "&" + y) == [x] + Split(y)
  {
    var s := x + "&" + y;
    if x == "" {
      assert s == "&" + y && s[1..] == y;
    } else {
      assert s[1..] == x[1..] + "&" + y;
      SplitAt(x[1..], y);
      assert x == [x[0]] + x[1..];
    }
  }

  lemma {:induction false} SplitOne(x: string)
    requires Free(x, '&')
    ensures Split(x) == [x]
  {
    if x != "" {
      SplitOne(x[1..]);
      assert x == [x[0]] + x[1..];
    }
  }

  lemma {:induction false} SplitPieces(s: string, c: char)
    requires c == '&' || Free(s, c)
    ensures forall p :: p in Split(s) ==> Free(p, c)
  {
    if s != "" {
      SplitPieces(s[1..], c);
      var rest := Split(s[1..]);
      assert rest == [rest[0]] + rest[1..];
      assert Free(rest[0], c);
    }
  }

  /** Reading a joined list behind a first piece. */
  lemma {:induction false} SplitJoin(x: string, ps: seq<string>)
    requires Free(x, '&') && ps != [] && forall p :: p in ps ==> Free(p, '&')
    ensures Split(x + Join(ps)) == [x + ps[0]] + ps[1..]
    decreases |ps|
  {
    hide Split;
    var y := x + ps[0];
    assert ps[0] in ps && Free(y, '&');
    if |ps| == 1 {
      SplitOne(y);
    } else {
      var tail := Join(ps[1..]);
      assert x + Join(ps) == y + "&" + tail;
      SplitAt(y, tail);
      SplitJoin("", ps[1..]);
      assert "" + tail == tail && "" + ps[1] == ps[1];
      assert [ps[1]] + ps[1..][1..] == ps[1..];
    }
  }

  lemma {:induction false} JoinFree(ps: seq<string>)
    requires forall p :: p in ps ==> Free(p, '#')
    ensures Free(Join(ps), '#')
  {
    if ps != [] {
      assert ps[0] in ps;
    }
    if |ps| > 1 {
      JoinFree(ps[1..]);
    }
  }

  lemma {:induction false} KeptAll(ps: seq<string>)
    requires forall p :: p in ps ==> Keep(p)
    ensures Kept(ps) == ps
  {
    if ps != [] {
      KeptAll(ps[1..]);
      assert ps == [ps[0]] + ps[1..];
    }
  }

  /** What every list of remaining parameters satisfies. */
  ghost predicate Parameters(ps: seq<string>)
  {
    forall p :: p in ps ==> Keep(p) && Free(p, '&') && Free(p, '#')
  }

  lemma OthersAreParameters(ref: string)
    ensures Parameters(Others(ref))
  {
    var body := Body(Tail(ref));
    assert Free(body, '#');
    SplitPieces(body, '#');
    SplitPieces(body, '&');
  }

  // ------------------------------------------------------------- reading a stamp back

  lemma {:induction false} RawEndAt(raw: string, rest: string)
    requires Free(raw, '?') && Free(raw, '#') && rest != "" && (rest[0] == '?' || rest[0] == '#')
    ensures RawEnd(raw + rest) == |raw|
  {
    if raw == "" {
      assert raw + rest == rest;
    } else {
      assert (raw + rest)[1..] == raw[1..] + rest;
      RawEndAt(raw[1..], rest);
    }
  }

  lemma {:induction false} HashAtEnd(body: string, frag: string)
    requires Free(body, '#') && (frag == "" || frag[0] == '#')
    ensures HashAt(body + frag) == |body|
  {
    if body == "" {
      assert body + frag == frag;
    } else {
      assert (body + frag)[1..] == body[1..] + frag;
      HashAtEnd(body[1..], frag);
    }
  }

  lemma RawIsPlain(ref: string)
    ensures Free(Raw(ref), '?') && Free(Raw(ref), '#') && ref == Raw(ref) + Tail(ref)
  {
  }

  lemma StripVersionParts(ref: string)
    ensures StripVersion(Tail(ref)) == Query(Others(ref)) + Fragment(Tail(ref))
  {
    hide Split, Kept, RawEnd, HashAt;
    SplitOne("");
    KeptNone("");
    var frag := Fragment(Tail(ref));
    assert "" + frag == frag;
  }

  lemma KeptNone(p: string)
    requires !Keep(p)
    ensures Kept([p]) == []
  {
  }

  lemma KeptFirst(p: string, ps: seq<string>)
    requires !Keep(p) && forall q :: q in ps ==> Keep(q)
    ensures Kept([p] + ps) == ps
  {
    assert ([p] + ps)[1..] == ps;
    KeptAll(ps);
  }

  /** The query of a stamped reference: the version item swallows the first parameter. */
  lemma StampedParameters(version: string, ps: seq<string>)
    requires (forall i :: 0 <= i < |version| ==> IsHexDigit(version[i])) && Parameters(ps)
    ensures Kept(Split("v=" + version + Query(ps))) == if ps == [] then [] else ps[1..]
  {
    hide Split, Kept, Join;
    var item := "v=" + version;
    if ps == [] {
      assert item + Query(ps) == item;
      SplitOne(item);
      KeptNone(item);
    } else {
      var x := item + "?";
      assert item + Query(ps) == x + Join(ps);
      SplitJoin(x, ps);
      KeptFirst(x + ps[0], ps[1..]);
    }
  }

  lemma StampedQuery(version: string, ps: seq<string>)
    requires (forall i :: 0 <= i < |version| ==> IsHexDigit(version[i])) && Parameters(ps)
    ensures Free("v=" + version + Query(ps), '#')
  {
    hide Keep;
    JoinFree(ps);
  }

  /** Path, parameters and fragment of a stamped reference. */
  lemma ReadStamp(raw: string, version: string, ps: seq<string>, frag: string)
    requires Free(raw, '?') && Free(raw, '#') && Parameters(ps) && (frag == "" || frag[0] == '#')
    requires forall i :: 0 <= i < |version| ==> IsHexDigit(version[i])
    ensures var s := WithVersion(raw, version, Query(ps) + frag);
            Raw(s) == raw && Fragment(Tail(s)) == frag && Others(s) == if ps == [] then [] else ps[1..]
  {
    hide Kept, Split, Join, Keep, Query, RawEnd, HashAt;
    var s := WithVersion(raw, version, Query(ps) + frag);
    var body := "v=" + version + Query(ps);
    assert s == raw + ("?" + (body + frag));
    RawEndAt(raw, "?" + (body + frag));
    assert Tail(s) == "?" + (body + frag);
    assert Tail(s)[1..] == body + frag;
    StampedQuery(version, ps);
    HashAtEnd(body, frag);
    assert (body + frag)[..|body|] == body && (body + frag)[|body|..] == frag;
    StampedParameters(version, ps);
  }

  /** A stamped reference is still one that gets stamped, against the same file. */
  lemma StaysEligible(raw: string, rest: string, resolve: string -> Target)
    requires Free(raw, '?') && Free(raw, '#') && resolve(raw).Asset?
    requires rest != "" && rest[0] == '?'
    requires !External(raw)
    ensures Eligible(raw + rest, resolve)
  {
    var s := raw + rest;
    RawEndAt(raw, rest);
    assert s[|raw|] == '?';
    assert !Blank(s);
    ExternalByPath(raw, rest);
  }

  /** Whether a reference is external is decided by its path. */
  lemma ExternalByPath(raw: string, rest: string)
    requires Free(raw, '?') && rest != "" && rest[0] == '?'
    ensures External(raw + rest) ==> External(raw)
  {
    PrefixByPath("http://", raw, rest);
    PrefixByPath("https://", raw, rest);
    PrefixByPath("//", raw, rest);
    PrefixByPath("data:", raw, rest);
    PrefixByPath("#", raw, rest);
    PrefixByPath("mailto:", raw, rest);
    PrefixByPath("javascript:", raw, rest);
    PrefixByPath("blob:", raw, rest);
    PrefixByPath("tel:", raw, rest);
  }

  lemma PrefixByPath(p: string, raw: string, rest: string)
    requires Free(p, '?') && rest != "" && rest[0] == '?'
    ensures p <= raw + rest ==> p <= raw
  {
    assert (raw + rest)[|raw|] == '?';
  }

  lemma ExternalPath(ref: string)
    requires !External(ref)
    ensures !External(Raw(ref))
  {
    assert Raw(ref) <= ref;
  }

  /** One stamp: path and fragment stay, exactly the first parameter is lost. */
  lemma StampOnce(ref: string, resolve: string -> Target)
    requires HexVersions(resolve) && Eligible(ref, resolve)
    ensures var s := Restamp(ref, resolve);
            && Eligible(s, resolve)
            && Raw(s) == Raw(ref)
            && Fragment(Tail(s)) == Fragment(Tail(ref))
            && Others(s) == if Others(ref) == [] then [] else Others(ref)[1..]
    ensures Restamp(ref, resolve) ==
            WithVersion(Raw(ref), resolve(Raw(ref)).version, Query(Others(ref)) + Fragment(Tail(ref)))
  {
    hide Others, Fragment, Query, External, Blank, StripVersion;
    RawIsPlain(ref);
    StripVersionParts(ref);
    OthersAreParameters(ref);
    ExternalPath(ref);
    var version := resolve(Raw(ref)).version;
    var ps, frag := Others(ref), Fragment(Tail(ref));
    ReadStamp(Raw(ref), version, ps, frag);
    var s := WithVersion(Raw(ref), version, Query(ps) + frag);
    assert s == Raw(ref) + ("?v=" + version + (Query(ps) + frag));
    StaysEligible(Raw(ref), "?v=" + version + (Query(ps) + frag), resolve);
  }

  // ------------------------------------------------------------------------ iteration

  function Iterate(ref: string, resolve: string -> Target, k: nat): string
  {
    if k == 0 then ref else Restamp(Iterate(ref, resolve, k - 1), resolve)
  }

  function Drop(ps: seq<string>, k: nat): seq<string>
  {
    if k <= |ps| then ps[k..] else []
  }

  /** After `k` stamps the first `k` parameters are gone. */
  lemma {:induction false} IterateLoses(ref: string, resolve: string -> Target, k: nat)
    requires HexVersions(resolve) && Eligible(ref, resolve)
    ensures var s := Iterate(ref, resolve, k);
            && Eligible(s, resolve)
            && Raw(s) == Raw(ref)
            && Fragment(Tail(s)) == Fragment(Tail(ref))
            && Others(s) == Drop(Others(ref), k)
  {
    hide Others, Fragment, Eligible, Restamp, Raw, Tail;
    if k > 0 {
      IterateLoses(ref, resolve, k - 1);
      StampOnce(Iterate(ref, resolve, k - 1), resolve);
    }
  }

  /** The text after `k + 1` stamps. */
  lemma IterateText(ref: string, resolve: string -> Target, k: nat)
    requires HexVersions(resolve) && Eligible(ref, resolve)
    ensures Iterate(ref, resolve, k + 1) ==
            WithVersion(Raw(ref), resolve(Raw(ref)).version, Query(Drop(Others(ref), k)) + Fragment(Tail(ref)))
  {
    hide Others, Fragment, Eligible, Restamp, Raw, Tail, Query, WithVersion;
    IterateLoses(ref, resolve, k);
    StampOnce(Iterate(ref, resolve, k), resolve);
  }

  /** With m other parameters, m + 1 stamps reach path, version and fragment for good. */
  lemma IterationSettles(ref: string, resolve: string -> Target, k: nat)
    requires HexVersions(resolve) && Eligible(ref, resolve) && k >= |Others(ref)|
    ensures Iterate(ref, resolve, k + 1) == WithVersion(Raw(ref), resolve(Raw(ref)).version, Fragment(Tail(ref)))
  {
    hide Others, Fragment, Eligible, Raw, Tail, WithVersion;
    IterateText(ref, resolve, k);
    assert "" + Fragment(Tail(ref)) == Fragment(Tail(ref));
  }

  lemma QueryShrinks(ps: seq<string>)
    requires ps != [] && Parameters(ps)
    ensures |Query(ps[1..])| < |Query(ps)|
  {
    assert Keep(ps[0]);
  }

  /** Stamping twice is stamping once exactly when there are no other parameters. */
  lemma IdempotentExactly(ref: string, resolve: string -> Target)
    requires HexVersions(resolve) && Eligible(ref, resolve)
    ensures Restamp(Restamp(ref, resolve), resolve) == Restamp(ref, resolve) <==> Others(ref) == []
  {
    hide Others, Fragment, Eligible, Restamp, Raw, Tail, Query;
    StampOnce(ref, resolve);
    StampOnce(Restamp(ref, resolve), resolve);
    OthersAreParameters(ref);
    if Others(ref) != [] {
      QueryShrinks(Others(ref));
    }
  }

  // --------------------------------------------------------------------------- pages

  /** The references that a stamp changes, with what they become, in page order. */
  function Changes(refs: seq<string>, resolve: string -> Target): seq<(string, string)>
  {
    if refs == [] then []
    else
      var last := refs[|refs| - 1];
      var s := Restamp(last, resolve);
      Changes(refs[..|refs| - 1], resolve) + if Eligible(last, resolve) && s != last then [(last, s)] else []
  }

  /** `stamp_html` on the references of a page: the new ones, and which of them changed. */
  method StampPage(refs: seq<string>, resolve: string -> Target)
    returns (stamped: seq<string>, changed: seq<(string, string)>)
    ensures |stamped| == |refs| && forall i :: 0 <= i < |refs| ==> stamped[i] == Restamp(refs[i], resolve)
    ensures changed == Changes(refs, resolve)
    ensures changed == [] <==> forall i :: 0 <= i < |refs| ==> Eligible(refs[i], resolve) ==> Restamp(refs[i], resolve) == refs[i]
    ensures forall c :: c in changed <==>
              c.0 in refs && Eligible(c.0, resolve) && c.1 == Restamp(c.0, resolve) && c.1 != c.0
  {
    hide Blank, External, WithVersion, StripVersion, Raw, Tail;
    stamped, changed := [], [];
    for i := 0 to |refs|
      invariant |stamped| == i && forall j :: 0 <= j < i ==> stamped[j] == Restamp(refs[j], resolve)
      invariant changed == Changes(refs[..i], resolve)
      invariant changed == [] <==> forall j :: 0 <= j < i ==> Eligible(refs[j], resolve) ==> Restamp(refs[j], resolve) == refs[j]
      invariant forall c :: c in changed <==>
                  c.0 in refs[..i] && Eligible(c.0, resolve) && c.1 == Restamp(c.0, resolve) && c.1 != c.0
    {
      var (s, why) := StampReference(refs[i], resolve);
      if why == Stamped && s != refs[i] {
        changed := changed + [(refs[i], s)];
      }
      stamped := stamped + [s];
      assert refs[..i + 1] == refs[..i] + [refs[i]];
    }
    assert refs[..|refs|] == refs;
  }

  lemma StampIneligible(ref: string, resolve: string -> Target)
    requires !Eligible(ref, resolve)
    ensures Restamp(ref, resolve) == ref
  {
    RawIsPlain(ref);
  }

  /**
   Stamp a page and check it: the check is satisfied exactly when no stamped
   reference had another query parameter.
   */
  method StampThenCheck(refs: seq<string>, resolve: string -> Target)
    returns (problems: seq<(string, string)>)
    requires HexVersions(resolve)
    ensures problems == [] <==> forall i :: 0 <= i < |refs| && Eligible(refs[i], resolve) ==> Others(refs[i]) == []
  {
    hide Others, Eligible, Restamp;
    var stamped, _ := StampPage(refs, resolve);
    var again;
    again, problems := StampPage(stamped, resolve);
    forall i | 0 <= i < |refs|
      ensures Eligible(refs[i], resolve) ==>
                Eligible(stamped[i], resolve) && (Restamp(stamped[i], resolve) == stamped[i] <==> Others(refs[i]) == [])
      ensures !Eligible(refs[i], resolve) ==> !Eligible(stamped[i], resolve)
    {
      if Eligible(refs[i], resolve) {
        StampOnce(refs[i], resolve);
        IdempotentExactly(refs[i], resolve);
      } else {
        StampIneligible(refs[i], resolve);
      }
    }
  }

  /** The documentation says the rest of the query is kept; here it is not. */
  lemma StampLosesAParameter(resolve: string -> Target)
    requires HexVersions(resolve) && resolve("a.js").Asset?
    ensures Eligible("a.js?x=1", resolve)
    ensures Others("a.js?x=1") == ["x=1"] && Others(Restamp("a.js?x=1", resolve)) == []
  {
    hide StripVersion, WithVersion, Kept, Split, RawEnd, HashAt, Restamp;
    var ref := "a.js?x=1";
    RawEndAt("a.js", "?x=1");
    assert "a.js" + "?x=1" == ref;
    assert Raw(ref) == "a.js" && Tail(ref) == "?x=1";
    assert ref[0] == 'a';
    HashAtEnd("x=1", "");
    assert "x=1" + "" == "x=1" && Tail(ref)[1..] == "x=1";
    SplitOne("x=1");
    assert "x=1"[0] != "v="[0] && Keep("x=1");
    KeptAll(["x=1"]);
    StampOnce(ref, resolve);
  }
}
