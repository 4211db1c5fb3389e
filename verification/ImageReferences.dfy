/** Pinned image references: a registry, at most one namespace, a name and a version. */
module ImageReferences {
  import opened Basics
  import opened Texts

  datatype PartError = CannotBeEmpty | TooLong | Invalid(text: string)

  datatype ReferenceError =
    | MissingRegistry(text: string)
    | InvalidRegistry(error: PartError)
    | Unexpected(text: string)
    | MissingVersion
    | VersionMustBePinned
    | InvalidNamespace(error: PartError)
    | InvalidName(error: PartError)
    | InvalidVersion(error: PartError)

  datatype ImageReference =
    ImageReference(registry: string, namespace: Option<string>, name: string, version: string)

  const MAX_REGISTRY := 255
  const MAX_COMPONENT := 255
  const MAX_VERSION := 128

  predicate IsDigit(c: char)
  {
    '0' <= c <= '9'
  }

  predicate IsLower(c: char)
  {
    'a' <= c <= 'z' || IsDigit(c)
  }

  predicate IsAlphanumeric(c: char)
  {
    IsLower(c) || 'A' <= c <= 'Z'
  }

  /** `[a-zA-Z0-9]([a-zA-Z0-9.-]*[a-zA-Z0-9])?` */
  predicate MatchesHost(s: string)
  {
    && s != "" && IsAlphanumeric(s[0]) && IsAlphanumeric(s[|s| - 1])
    && forall i :: 0 <= i < |s| ==> IsAlphanumeric(s[i]) || s[i] == '.' || s[i] == '-'
  }

  /** A host, and perhaps `:[0-9]{1,5}`. */
  predicate MatchesRegistry(s: string)
  {
    match SplitOnce(s, ":")
    case None => MatchesHost(s)
    case Some((host, port)) =>
      MatchesHost(host) && 1 <= |port| <= 5 && forall i :: 0 <= i < |port| ==> IsDigit(port[i])
  }

  predicate IsJoiner(c: char)
  {
    c == '.' || c == '_' || c == '-'
  }

  /** `[a-z0-9]+(?:(?:\.|_{1,2}|-+)[a-z0-9]+)*`: one dot, one or two underscores, or dashes, between words. */
  predicate MatchesComponent(s: string)
  {
    && s != "" && IsLower(s[0]) && IsLower(s[|s| - 1])
    && (forall i :: 0 <= i < |s| ==> IsLower(s[i]) || IsJoiner(s[i]))
    && (forall i :: 0 < i < |s| && IsJoiner(s[i - 1]) && IsJoiner(s[i]) ==> s[i - 1] == s[i] && s[i] != '.')
    && (forall i :: 1 < i < |s| && s[i] == '_' ==> s[i - 1] != '_' || s[i - 2] != '_')
  }

  /** `[a-zA-Z0-9_][a-zA-Z0-9._-]*` */
  predicate MatchesVersion(s: string)
  {
    && s != "" && (IsAlphanumeric(s[0]) || s[0] == '_')
    && forall i :: 0 <= i < |s| ==> IsAlphanumeric(s[i]) || IsJoiner(s[i])
  }

  function Validate(s: string, maxLength: nat, matches: string -> bool): (r: Result<string, PartError>)
    ensures r.Ok? <==> s != "" && |s| <= maxLength && matches(s)
    ensures r.Ok? ==> r.value == s
  {
    if s == "" then Err(CannotBeEmpty)
    else if |s| > maxLength then Err(TooLong)
    else if matches(s) then Ok(s)
    else Err(Invalid(s))
  }

  function ParseRegistry(s: string): Result<string, PartError>
  {
    Validate(s, MAX_REGISTRY, MatchesRegistry)
  }

  function ParseComponent(s: string): Result<string, PartError>
  {
    Validate(s, MAX_COMPONENT, MatchesComponent)
  }

  function ParseVersion(s: string): Result<string, PartError>
  {
    Validate(s, MAX_VERSION, MatchesVersion)
  }

  predicate LooksLikeHost(segment: string)
  {
    '.' in segment || ':' in segment || segment == "localhost"
  }

  /** The checks on the parts, in the order their errors are reported. */
  function FromParts(registry: string, namespace: Option<string>, nameAndVersion: string):
    (r: Result<ImageReference, ReferenceError>)
  {
    match SplitOnce(nameAndVersion, ":")
    case None => Err(MissingVersion)
    case Some((name, version)) =>
      if version == "latest" then Err(VersionMustBePinned)
      else if ParseRegistry(registry).Err? then Err(InvalidRegistry(ParseRegistry(registry).error))
      else if namespace.Some? && ParseComponent(namespace.value).Err? then
        Err(InvalidNamespace(ParseComponent(namespace.value).error))
      else if ParseComponent(name).Err? then Err(InvalidName(ParseComponent(name).error))
      else if ParseVersion(version).Err? then Err(InvalidVersion(ParseVersion(version).error))
      else Ok(ImageReference(registry, namespace, name, version))
  }

  function Parse(s: string): Result<ImageReference, ReferenceError>
  {
    var segments := Split(s);
    if !LooksLikeHost(segments[0]) || |segments| == 1 then Err(MissingRegistry(s))
    else if |segments| == 2 then FromParts(segments[0], None, segments[1])
    else if |segments| == 3 then FromParts(segments[0], Some(segments[1]), segments[2])
    else Err(Unexpected(s))
  }

  function FormattedName(v: ImageReference): string
  {
    if v.namespace.Some? then v.registry + "/" + v.namespace.value + "/" + v.name else v.registry + "/" + v.name
  }

  function Display(v: ImageReference): string
  {
    FormattedName(v) + ":" + v.version
  }

  /** A reference made of valid parts, by whatever means. */
  predicate ValidParts(v: ImageReference)
  {
    && ParseRegistry(v.registry).Ok? && ParseComponent(v.name).Ok? && ParseVersion(v.version).Ok?
    && (v.namespace.Some? ==> ParseComponent(v.namespace.value).Ok?)
  }

  /** What reading adds to that: a registry that looks like a host, and a version that is not `latest`. */
  predicate Readable(v: ImageReference)
  {
    LooksLikeHost(v.registry) && v.version != "latest"
  }

  lemma DisplaySegments(v: ImageReference)
    ensures var last := v.name + ":" + v.version;
            Display(v) == Join(
              if v.namespace.Some? then [v.registry, v.namespace.value, last] else [v.registry, last], "/")
  {
    var last := v.name + ":" + v.version;
    if v.namespace.Some? {
      var parts := [v.registry, v.namespace.value, last];
      assert parts[1..] == [v.namespace.value, last] && parts[1..][1..] == [last];
      assert Join(parts[1..], "/") == v.namespace.value + "/" + last;
    } else {
      var parts := [v.registry, last];
      assert parts[1..] == [last];
    }
  }

  lemma FromPartsPrintsBack(registry: string, namespace: Option<string>, nameAndVersion: string)
    requires FromParts(registry, namespace, nameAndVersion).Ok?
    ensures var v := FromParts(registry, namespace, nameAndVersion).value;
            && ValidParts(v) && v.version != "latest" && v.registry == registry && v.namespace == namespace
            && v.name + ":" + v.version == nameAndVersion
  {}

  /** Every string that is accepted prints back as itself. */
  lemma AcceptedPrintsBack(s: string)
    requires Parse(s).Ok?
    ensures Display(Parse(s).value) == s && ValidParts(Parse(s).value) && Readable(Parse(s).value)
  {
    hide FromParts;
    var segments := Split(s);
    JoinOfSplit(s);
    DisplaySegments(Parse(s).value);
    if |segments| == 2 {
      FromPartsPrintsBack(segments[0], None, segments[1]);
      assert segments == [segments[0], segments[1]];
    } else {
      FromPartsPrintsBack(segments[0], Some(segments[1]), segments[2]);
      assert segments == [segments[0], segments[1], segments[2]];
    }
  }

  lemma ComponentCharacters(s: string)
    requires MatchesComponent(s)
    ensures forall i :: 0 <= i < |s| ==> s[i] != '/' && s[i] != ':'
  {
    forall i | 0 <= i < |s|
      ensures s[i] != '/' && s[i] != ':'
    {
      assert IsLower(s[i]) || IsJoiner(s[i]);
    }
  }

  lemma VersionCharacters(s: string)
    requires MatchesVersion(s)
    ensures forall i :: 0 <= i < |s| ==> s[i] != '/'
  {
    forall i | 0 <= i < |s|
      ensures s[i] != '/'
    {
      assert IsAlphanumeric(s[i]) || IsJoiner(s[i]);
    }
  }

  lemma RegistryCharacters(s: string)
    requires MatchesRegistry(s)
    ensures forall i :: 0 <= i < |s| ==> s[i] != '/'
  {
    var parts := SplitOnce(s, ":");
    var host, port := if parts.None? then s else parts.value.0, if parts.None? then "" else parts.value.1;
    forall i | 0 <= i < |host|
      ensures host[i] != '/'
    {
      assert IsAlphanumeric(host[i]) || host[i] == '.' || host[i] == '-';
    }
    forall i | 0 <= i < |port|
      ensures port[i] != '/'
    {
      assert IsDigit(port[i]);
    }
  }

  /** The segments of a printed reference are its parts. */
  lemma DisplaySplits(v: ImageReference)
    requires ValidParts(v)
    ensures var last := v.name + ":" + v.version;
            && Split(Display(v)) ==
               (if v.namespace.Some? then [v.registry, v.namespace.value, last] else [v.registry, last])
            && SplitOnce(last, ":") == Some((v.name, v.version))
  {
    RegistryCharacters(v.registry);
    ComponentCharacters(v.name);
    VersionCharacters(v.version);
    if v.namespace.Some? {
      ComponentCharacters(v.namespace.value);
    }
    DisplaySegments(v);
    FindAfter(v.name, ":", v.version);
    var last := v.name + ":" + v.version;
    SplitOfJoin(if v.namespace.Some? then [v.registry, v.namespace.value, last] else [v.registry, last]);
  }

  /** A reference of valid parts reads back from its printed form exactly when it is readable. */
  lemma PrintedReadsBackExactlyWhen(v: ImageReference)
    requires ValidParts(v)
    ensures Parse(Display(v)) == Ok(v) <==> Readable(v)
    ensures Parse(Display(v)).Ok? <==> Readable(v)
    ensures Readable(v) <==>
              ('.' in v.registry || ':' in v.registry || v.registry == "localhost") && v.version != "latest"
  {
    hide Split, SplitOnce, Display, MatchesRegistry, MatchesComponent, MatchesVersion;
    DisplaySplits(v);
  }

  /** The accepted strings are the printed forms of the readable references, one each. */
  lemma AcceptedExactlyWhenPrinted(s: string)
    ensures Parse(s).Ok? <==> exists v :: ValidParts(v) && Readable(v) && Display(v) == s
  {
    hide Parse, ValidParts, Readable, Display;
    if Parse(s).Ok? {
      AcceptedPrintsBack(s);
    }
    if v :| ValidParts(v) && Readable(v) && Display(v) == s {
      PrintedReadsBackExactlyWhen(v);
    }
  }
}
