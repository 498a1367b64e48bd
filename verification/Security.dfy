/** Security levels of documents and the roles that may see them. */
module Security {
  import opened Sequences
  import opened Text
  import opened Wrappers

  const ADMIN := "admin"
  const GENERAL := "general"
  const INTERNAL := "internal"
  const CONFIDENTIAL := "confidential"
  const RESTRICTED := "restricted"

  datatype SecurityError = InvalidLevel | LevelForbidden

  /** Strips a level, reads an empty one as `internal`, and refuses unknown ones. */
  function ValidateLevel(level: string): Result<string, SecurityError> {
    var stripped := Strip(level);
    var normalized := if stripped == "" then INTERNAL else stripped;
    if normalized in [GENERAL, INTERNAL, CONFIDENTIAL, RESTRICTED] then Ok(normalized) else Err(InvalidLevel)
  }

  function AllowedLevels(role: string): seq<string> {
    if role == ADMIN then [GENERAL, INTERNAL, CONFIDENTIAL, RESTRICTED] else [GENERAL, INTERNAL]
  }

  /** The permission error for a document's level, if there is one. */
  function LevelError(role: string, level: string): Option<SecurityError> {
    match ValidateLevel(level)
    case Err(e) => Some(e)
    case Ok(validated) => if validated in AllowedLevels(role) then None else Some(LevelForbidden)
  }

  // ----- levels and roles, literally -----

  predicate IsLevel(level: string) {
    level == "general" || level == "internal" || level == "confidential" || level == "restricted"
  }

  /** The levels that everybody handles; the other two are for administrators. */
  predicate IsOpen(level: string) {
    level == "general" || level == "internal"
  }

  /** A level is one of four names, with whitespace around it allowed, and an empty one means `internal`. */
  lemma ValidLevels(level: string, valid: string)
    ensures ValidateLevel(level) == Ok(valid)
      <==> IsLevel(valid) && (Strip(level) == valid || (Strip(level) == "" && valid == "internal"))
  {
  }

  lemma RoleLevels(role: string, level: string)
    ensures level in AllowedLevels(role) <==> IsOpen(level) || (role == "admin" && IsLevel(level))
  {
    var allowed := AllowedLevels(role);
    assert allowed[0] == "general" && allowed[1] == "internal";
    if role == "admin" {
      assert allowed[2] == "confidential" && allowed[3] == "restricted";
    }
  }

  lemma LevelsAreTrimmed(level: string)
    requires IsLevel(level)
    ensures Strip(level) == level
  {
    StripTrimmed(level);
  }

  /** Administrators handle every level, everybody else the open ones. */
  lemma WhoMayHandle(role: string, level: string)
    requires IsLevel(level)
    ensures LevelError(role, level) == if role == "admin" || IsOpen(level) then None else Some(LevelForbidden)
  {
    LevelsAreTrimmed(level);
    ValidLevels(level, level);
    RoleLevels(role, level);
  }

  /** The list of requested levels, validated in order and without repetition; the first bad one is the error. */
  method ValidateLevels(requested: Option<seq<string>>) returns (r: Result<Option<seq<string>>, SecurityError>)
    ensures requested.None? || requested.value == [] ==> r == Ok(None)
    ensures requested.Some? && requested.value != [] ==>
      (r.Ok? <==> forall i :: 0 <= i < |requested.value| ==> ValidateLevel(requested.value[i]).Ok?)
    ensures requested.Some? && requested.value != [] && r.Ok? ==>
      && r.value.Some? && Distinct(r.value.value) && r.value.value != []
      && forall level :: level in r.value.value <==> IsRequested(requested.value, level)
    ensures r.Err? ==> r.error == InvalidLevel
  {
    if requested.None? || requested.value == [] {
      return Ok(None);
    }
    var levels: seq<string> := requested.value;
    var validated: seq<string> := [];
    for i := 0 to |levels|
      invariant forall k :: 0 <= k < i ==> ValidateLevel(levels[k]).Ok?
      invariant Distinct(validated)
      invariant forall level :: level in validated <==> RequestedUpTo(levels, i, level)
    {
      var normalized := ValidateLevel(levels[i]);
      if normalized.Err? {
        return Err(normalized.error);
      }
      validated := AddLevel(levels, i, validated, normalized.value);
    }
    assert RequestedUpTo(levels, |levels|, ValidateLevel(levels[0]).value);
    return Ok(Some(validated));
  }

  /** Appends a level that is not in the list yet. */
  method AddLevel(levels: seq<string>, i: nat, validated: seq<string>, level: string) returns (r: seq<string>)
    requires i < |levels| && ValidateLevel(levels[i]) == Ok(level)
    requires Distinct(validated) && forall l :: l in validated <==> RequestedUpTo(levels, i, l)
    ensures Distinct(r) && forall l :: l in r <==> RequestedUpTo(levels, i + 1, l)
  {
    r := if level in validated then validated else validated + [level];
  }

  /** One of the first `n` requested entries validates to this level. */
  ghost predicate RequestedUpTo(requested: seq<string>, n: nat, level: string)
    requires n <= |requested|
  {
    exists i :: 0 <= i < n && ValidateLevel(requested[i]) == Ok(level)
  }

  ghost predicate IsRequested(requested: seq<string>, level: string) {
    RequestedUpTo(requested, |requested|, level)
  }

  /**
   The levels a search is restricted to.  None means unrestricted and is granted to an
   administrator who asks for nothing; any other answer lies within what the role may see, and
   is the requested set itself when there was one.
   */
  method FilterLevelsForRole(role: string, requested: Option<seq<string>>)
    returns (r: Result<Option<seq<string>>, SecurityError>)
    ensures r.Ok? && r.value.None? ==> role == ADMIN && (requested.None? || requested.value == [])
    ensures r.Ok? && r.value.Some? ==>
      && r.value.value != []
      && forall level :: level in r.value.value ==> level in AllowedLevels(role)
    ensures requested.None? || requested.value == [] ==>
      r == Ok(if role == ADMIN then None else Some(AllowedLevels(role)))
    ensures requested.Some? && requested.value != [] ==>
      && (r.Ok? <==> forall i :: 0 <= i < |requested.value| ==> LevelError(role, requested.value[i]).None?)
      && (r.Ok? ==> r.value.Some? && (forall level :: level in r.value.value <==> IsRequested(requested.value, level)))
      && (r == Err(InvalidLevel) <==> exists i :: 0 <= i < |requested.value| && ValidateLevel(requested.value[i]).Err?)
  {
    var validated := ValidateLevels(requested);
    if validated.Err? {
      assert exists i :: 0 <= i < |requested.value| && LevelError(role, requested.value[i]).Some?;
      return Err(validated.error);
    }
    if role == ADMIN && validated.value.None? {
      return Ok(None);
    }
    var allowed := AllowedLevels(role);
    if validated.value.None? {
      return Ok(Some(allowed));
    }
    var levels := validated.value.value;
    if exists level :: level in levels && level !in allowed {
      var level :| level in levels && level !in allowed;
      assert IsRequested(requested.value, level);
      assert exists i :: 0 <= i < |requested.value| && LevelError(role, requested.value[i]).Some?;
      return Err(LevelForbidden);
    }
    forall i | 0 <= i < |requested.value|
      ensures LevelError(role, requested.value[i]).None?
    {
      assert IsRequested(requested.value, ValidateLevel(requested.value[i]).value);
    }
    return Ok(Some(levels));
  }
}
