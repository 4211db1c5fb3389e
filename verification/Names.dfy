/** Repository names: one component, or a namespace and a component, with two textual forms. */
module Names {
  import opened Basics
  import opened Texts

  const MAX_LENGTH := 255
  const SEPARATOR := "/"
  const ESCAPED_SEPARATOR := "%2F"

  datatype Name = Name(name: string, namespace: Option<string>)

  datatype NameError = CannotBeEmpty | TooLong | InvalidName

  predicate IsAlphanumeric(c: char)
  {
    'a' <= c <= 'z' || '0' <= c <= '9'
  }

  predicate IsJoiner(c: char)
  {
    c == '.' || c == '_' || c == '-'
  }

  /** The regular expression `[a-z0-9]+(?:[._-][a-z0-9]+)*`: joiners only between alphanumerics. */
  predicate MatchesComponent(s: string)
  {
    && s != ""
    && IsAlphanumeric(s[0])
    && IsAlphanumeric(s[|s| - 1])
    && (forall i :: 0 <= i < |s| ==> IsAlphanumeric(s[i]) || IsJoiner(s[i]))
    && (forall i :: 0 < i < |s| && IsJoiner(s[i]) ==> IsAlphanumeric(s[i - 1]))
  }

  function ParseComponent(s: string): (r: Result<string, NameError>)
    ensures r.Ok? <==> |s| <= MAX_LENGTH && MatchesComponent(s)
    ensures r.Ok? ==> r.value == s
  {
    if s == "" then Err(CannotBeEmpty)
    else if |s| > MAX_LENGTH then Err(TooLong)
    else if MatchesComponent(s) then Ok(s)
    else Err(InvalidName)
  }

  /** The names the constructors hand out. */
  predicate Valid(n: Name)
  {
    && |n.name| <= MAX_LENGTH && MatchesComponent(n.name)
    && (n.namespace.Some? ==>
         && |n.namespace.value| + |n.name| + 1 <= MAX_LENGTH
         && MatchesComponent(n.namespace.value))
  }

  function FromNamespaced(namespace: string, name: string): (r: Result<Name, NameError>)
    ensures r.Ok? <==> Valid(Name(name, Some(namespace)))
    ensures r.Ok? ==> r.value == Name(name, Some(namespace))
  {
    match ParseComponent(namespace)
    case Err(e) => Err(e)
    case Ok(space) =>
      match ParseComponent(name)
      case Err(e) => Err(e)
      case Ok(last) =>
        if |space| + |last| + 1 > MAX_LENGTH then Err(TooLong) else Ok(Name(last, Some(space)))
  }

  /** The escaped separator takes precedence over the plain one. */
  function Split(s: string): Option<(string, string)>
  {
    var escaped := SplitOnce(s, ESCAPED_SEPARATOR);
    if escaped.Some? then escaped else SplitOnce(s, SEPARATOR)
  }

  function FromText(s: string): (r: Result<Name, NameError>)
    ensures r.Ok? ==> Valid(r.value)
  {
    match Split(s)
    case Some(parts) => FromNamespaced(parts.0, parts.1)
    case None =>
      match ParseComponent(s)
      case Err(e) => Err(e)
      case Ok(name) => Ok(Name(name, None))
  }

  /** The name as users write it. */
  function Display(n: Name): string
  {
    if n.namespace.Some? then n.namespace.value + SEPARATOR + n.name else n.name
  }

  /** The name as a single folder name. */
  function FsSafe(n: Name): string
  {
    if n.namespace.Some? then n.namespace.value + ESCAPED_SEPARATOR + n.name else n.name
  }

  /** Every valid name reads back from the form users write. */
  lemma DisplayRoundTrip(n: Name)
    requires Valid(n)
    ensures FromText(Display(n)) == Ok(n)
  {
    NotFound(Display(n), ESCAPED_SEPARATOR);
    if n.namespace.Some? {
      FindAfter(n.namespace.value, SEPARATOR, n.name);
    } else {
      NotFound(n.name, SEPARATOR);
    }
  }

  /** Every valid name reads back from its folder name. */
  lemma FsSafeRoundTrip(n: Name)
    requires Valid(n)
    ensures FromText(FsSafe(n)) == Ok(n)
  {
    if n.namespace.Some? {
      FindAfter(n.namespace.value, ESCAPED_SEPARATOR, n.name);
    } else {
      NotFound(n.name, ESCAPED_SEPARATOR);
      NotFound(n.name, SEPARATOR);
    }
  }

  /** Different repositories get different folders. */
  lemma FsSafeInjective(m: Name, n: Name)
    requires Valid(m) && Valid(n) && FsSafe(m) == FsSafe(n)
    ensures m == n
  {
    FsSafeRoundTrip(m);
    FsSafeRoundTrip(n);
  }
}
