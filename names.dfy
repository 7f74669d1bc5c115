/**
 * Display-name policy and reservation (ValidadorNombre): a fixed chain of
 * checks on the trimmed name, a set of reserved lower-case names, and the
 * automatic "juan", "juan2", "juan3", ... generator.
 */
module Names {
  import opened Wrappers
  import opened Text

  /** LONGITUD_MAXIMA. */
  const MaxLength: nat := 10

  /** NOMBRES_PROHIBIDOS, already lower case. */
  const Forbidden: set<String> := {
    "nigger", "niger", "nijer", "pedro sanchez", "pedrosanchez",
    "admin", "servidor", "server", "root"
  }

  /** Base of the automatic names. */
  const BaseName: String := "juan"

  /** Why `validar` rejects a name, one case per check it runs. */
  datatype NameError = Empty | TooLong | OnlySymbols | NotAllowed | NoLetter | InUse

  /** The diagnostic `validar` returns for each rejection. */
  function Message(e: NameError): String {
    match e
    case Empty => "ERROR: El nombre no puede estar vacio."
    case TooLong => "ERROR: El nombre no puede tener mas de " + NatToString(MaxLength) + " caracteres."
    case OnlySymbols => "ERROR: El nombre no puede estar compuesto solo por simbolos ASCII."
    case NotAllowed => "ERROR: Ese nombre no esta permitido."
    case NoLetter => "ERROR: El nombre debe contener al menos una letra."
    case InUse => "ERROR: Ese nombre ya esta en uso."
  }

  /** The form in which names are compared and reserved: trimmed, lower case. */
  function Key(name: String): String {
    ToLower(Trim(name))
  }

  /** `esAsciiArt`: no character is a letter or a digit. */
  predicate IsAsciiArt(s: String) {
    forall i :: 0 <= i < |s| ==> !IsLetterOrDigit(s[i])
  }

  /** The `tieneLetra` scan: some character is a letter. */
  predicate HasLetter(s: String) {
    exists i :: 0 <= i < |s| && IsLetter(s[i])
  }

  /** Position of each check in the chain of `validar`. */
  function Rank(e: NameError): nat {
    match e
    case Empty => 0
    case TooLong => 1
    case OnlySymbols => 2
    case NotAllowed => 3
    case NoLetter => 4
    case InUse => 5
  }

  /** Check `e` fails for the trimmed name `t`. */
  predicate Fails(e: NameError, reserved: set<String>, t: String) {
    match e
    case Empty => t == []
    case TooLong => |t| > MaxLength
    case OnlySymbols => IsAsciiArt(t)
    case NotAllowed => ToLower(t) in Forbidden
    case NoLetter => !HasLetter(t)
    case InUse => ToLower(t) in reserved
  }

  /** Every check ranked below `k` passes on the trimmed name `t`. */
  predicate PassesBefore(k: nat, reserved: set<String>, t: String) {
    && (k > 0 ==> !Fails(Empty, reserved, t))
    && (k > 1 ==> !Fails(TooLong, reserved, t))
    && (k > 2 ==> !Fails(OnlySymbols, reserved, t))
    && (k > 3 ==> !Fails(NotAllowed, reserved, t))
    && (k > 4 ==> !Fails(NoLetter, reserved, t))
    && (k > 5 ==> !Fails(InUse, reserved, t))
  }

  /** `validar`: the first check that fails on the trimmed name decides the
      error; None means the name is acceptable. */
  function Validate(reserved: set<String>, name: String): (r: Option<NameError>)
    ensures r.Some? ==> Fails(r.value, reserved, Trim(name)) && PassesBefore(Rank(r.value), reserved, Trim(name))
    ensures r == None <==> PassesBefore(6, reserved, Trim(name))
  {
    var t := Trim(name);
    if t == [] then Some(Empty)
    else if |t| > MaxLength then Some(TooLong)
    else if IsAsciiArt(t) then Some(OnlySymbols)
    else if ToLower(t) in Forbidden then Some(NotAllowed)
    else if !HasLetter(t) then Some(NoLetter)
    else if ToLower(t) in reserved then Some(InUse)
    else None
  }

  /** A name is accepted exactly when its trimmed form is non-empty, at most
      ten characters long, contains a letter, and its lower-case form is
      neither forbidden nor reserved; the symbols-only check is subsumed by
      the letter check. */
  lemma {:induction false} AcceptedExactly(reserved: set<String>, name: String)
    ensures Validate(reserved, name) == None <==>
      var t := Trim(name);
      && t != []
      && |t| <= MaxLength
      && HasLetter(t)
      && Key(name) !in Forbidden
      && Key(name) !in reserved
  {
    var t := Trim(name);
    if HasLetter(t) {
      var i :| 0 <= i < |t| && IsLetter(t[i]);
      assert !IsAsciiArt(t);
    }
  }

  /** A name of digits only passes the symbols-only check, then fails the
      letter check. */
  lemma {:induction false} DigitsOnlyNeedLetter(reserved: set<String>, name: String)
    requires Trim(name) != [] && |Trim(name)| <= MaxLength
    requires forall i :: 0 <= i < |Trim(name)| ==> IsDigit(Trim(name)[i])
    ensures Validate(reserved, name) == Some(NoLetter)
  {
    var t := Trim(name);
    assert !IsAsciiArt(t) by {
      assert IsLetterOrDigit(t[0]);
    }
    var k := ToLower(t);
    assert IsDigit(k[0]);
    ForbiddenLetterFirst();
  }

  /** Every denied name starts with a letter. */
  lemma {:induction false} ForbiddenLetterFirst()
    ensures forall f :: f in Forbidden ==> f != [] && IsLetter(f[0])
  {
  }

  lemma {:induction false} LowerKeepsClass(c: char)
    ensures IsLetter(LowerChar(c)) == IsLetter(c)
    ensures IsLetterOrDigit(LowerChar(c)) == IsLetterOrDigit(c)
  {
  }

  /** Reservation is case-insensitive: once a name has been accepted and
      reserved, every spelling of it that differs only in case (or in
      surrounding blanks) is reported as already in use. */
  lemma {:induction false} ReservedInAnyCase(reserved: set<String>, a: String, b: String)
    requires Validate(reserved, a) == None
    requires Key(b) == Key(a)
    ensures Validate(reserved + {Key(a)}, b) == Some(InUse)
  {
    AcceptedExactly(reserved, a);
    SameKeySameClass(Trim(a), Trim(b));
  }

  /** Strings equal up to case have letters, digits and symbols in the same places. */
  lemma {:induction false} SameKeySameClass(ta: String, tb: String)
    requires ToLower(ta) == ToLower(tb)
    ensures HasLetter(ta) == HasLetter(tb)
    ensures IsAsciiArt(ta) == IsAsciiArt(tb)
  {
    forall i | 0 <= i < |ta|
      ensures IsLetter(ta[i]) == IsLetter(tb[i])
      ensures IsLetterOrDigit(ta[i]) == IsLetterOrDigit(tb[i])
    {
      assert ToLower(ta)[i] == ToLower(tb)[i];
      LowerKeepsClass(ta[i]);
      LowerKeepsClass(tb[i]);
    }
  }

  /** The denylist ignores case: "Admin" is refused. */
  lemma {:induction false} AdminRefused(reserved: set<String>)
    ensures Validate(reserved, "Admin") == Some(NotAllowed)
  {
    assert Trim("Admin") == "Admin";
    assert ToLower("Admin") == "admin";
    assert IsLetter("Admin"[0]);
  }

  /** After reserving "Ana", "ANA" is already in use. */
  lemma {:induction false} AnaInUse()
    ensures Validate({} + {Key("Ana")}, "ANA") == Some(InUse)
  {
    assert Trim("Ana") == "Ana" && Trim("ANA") == "ANA";
    assert ToLower("Ana") == "ana" && ToLower("ANA") == "ana";
    assert IsLetter("Ana"[0]);
    assert "ana" !in Forbidden;
    ReservedInAnyCase({}, "Ana", "ANA");
  }

  /** "juan" followed by the decimal form of `k`. */
  function Suffixed(k: nat): String {
    BaseName + NatToString(k)
  }

  lemma {:induction false} SuffixedInjective(a: nat, b: nat)
    requires Suffixed(a) == Suffixed(b)
    ensures a == b
  {
    assert Suffixed(a)[|BaseName|..] == NatToString(a);
    assert Suffixed(b)[|BaseName|..] == NatToString(b);
    NatToStringInjective(a, b);
  }

  /** What `generarNombreAutomatico` returns: "juan" when it is free, else
      "juan" + k for the smallest k >= 2 whose name is free. */
  ghost predicate IsAutoName(reserved: set<String>, name: String) {
    && name !in reserved
    && (BaseName !in reserved ==> name == BaseName)
    && (BaseName in reserved ==>
          exists k: nat :: k >= 2 && name == Suffixed(k) &&
            forall j: nat :: 2 <= j < k ==> Suffixed(j) in reserved)
  }

  /** At most one name fits that description. */
  lemma {:induction false} AutoNameUnique(reserved: set<String>, a: String, b: String)
    requires IsAutoName(reserved, a) && IsAutoName(reserved, b)
    ensures a == b
  {
    if BaseName in reserved {
      var ka: nat :| ka >= 2 && a == Suffixed(ka) && forall j: nat :: 2 <= j < ka ==> Suffixed(j) in reserved;
      var kb: nat :| kb >= 2 && b == Suffixed(kb) && forall j: nat :: 2 <= j < kb ==> Suffixed(j) in reserved;
      if ka < kb {
        assert false;
      } else if kb < ka {
        assert false;
      }
    }
  }

  /** Every name "juan" + j with `lo <= j < hi` is reserved. */
  ghost predicate TakenBetween(reserved: set<String>, lo: nat, hi: nat)
    decreases hi - lo
  {
    lo >= hi || (Suffixed(lo) in reserved && TakenBetween(reserved, lo + 1, hi))
  }

  lemma {:induction false} TakenBetweenAll(reserved: set<String>, lo: nat, hi: nat, j: nat)
    requires TakenBetween(reserved, lo, hi) && lo <= j < hi
    ensures Suffixed(j) in reserved
    decreases hi - lo
  {
    if j > lo {
      TakenBetweenAll(reserved, lo + 1, hi, j);
    }
  }

  lemma {:induction false} TakenExtend(reserved: set<String>, lo: nat, hi: nat)
    requires lo <= hi && TakenBetween(reserved, lo, hi) && Suffixed(hi) in reserved
    ensures TakenBetween(reserved, lo, hi + 1)
    decreases hi - lo
  {
    if lo < hi {
      TakenExtend(reserved, lo + 1, hi);
    }
  }

  /** The names "juan" + j for `lo <= j < hi`. */
  ghost function SuffixedRange(lo: nat, hi: nat): set<String>
    decreases hi - lo
  {
    if lo >= hi then {} else {Suffixed(lo)} + SuffixedRange(lo + 1, hi)
  }

  lemma {:induction false} SuffixedRangeAbove(lo: nat, hi: nat, j: nat)
    requires j < lo
    ensures Suffixed(j) !in SuffixedRange(lo, hi)
    decreases hi - lo
  {
    if lo < hi {
      if Suffixed(j) == Suffixed(lo) {
        SuffixedInjective(j, lo);
      }
      SuffixedRangeAbove(lo + 1, hi, j);
    }
  }

  /** Taken names are distinct: `hi - lo` of them lie in the reserved set. */
  lemma {:induction false} TakenCount(reserved: set<String>, lo: nat, hi: nat)
    requires lo <= hi && TakenBetween(reserved, lo, hi)
    ensures SuffixedRange(lo, hi) <= reserved
    ensures |SuffixedRange(lo, hi)| == hi - lo
    decreases hi - lo
  {
    if lo < hi {
      TakenCount(reserved, lo + 1, hi);
      SuffixedRangeAbove(lo + 1, hi, lo);
    }
  }

  lemma {:induction false} TakenBound(reserved: set<String>, k: nat)
    requires 2 <= k && TakenBetween(reserved, 2, k)
    ensures k - 2 <= |reserved|
  {
    TakenCount(reserved, 2, k);
    SubsetSize(SuffixedRange(2, k), reserved);
  }

  /** The smallest `r >= k` whose name "juan" + r is free; one exists because
      the reserved set is finite. */
  ghost function FreeFrom(reserved: set<String>, k: nat): nat
    requires 2 <= k && TakenBetween(reserved, 2, k)
    decreases |reserved| + 2 - k
  {
    TakenBound(reserved, k);
    if Suffixed(k) !in reserved then k
    else
      TakenExtend(reserved, 2, k);
      FreeFrom(reserved, k + 1)
  }

  lemma {:induction false} FreeFromFree(reserved: set<String>, k: nat)
    requires 2 <= k && TakenBetween(reserved, 2, k)
    ensures k <= FreeFrom(reserved, k)
    ensures Suffixed(FreeFrom(reserved, k)) !in reserved
    ensures TakenBetween(reserved, 2, FreeFrom(reserved, k))
    decreases |reserved| + 2 - k
  {
    TakenBound(reserved, k);
    if Suffixed(k) in reserved {
      TakenExtend(reserved, 2, k);
      FreeFromFree(reserved, k + 1);
    }
  }

  /** The name `generarNombreAutomatico` computes for a reserved set. */
  ghost function AutoName(reserved: set<String>): String {
    if BaseName !in reserved then BaseName else Suffixed(FreeFrom(reserved, 2))
  }

  /** The computed name is the one described by `IsAutoName`. */
  lemma {:induction false} AutoNameMeetsIsAutoName(reserved: set<String>)
    ensures IsAutoName(reserved, AutoName(reserved))
  {
    if BaseName in reserved {
      FreeFromFree(reserved, 2);
      var k := FreeFrom(reserved, 2);
      forall j: nat | 2 <= j < k
        ensures Suffixed(j) in reserved
      {
        TakenBetweenAll(reserved, 2, k, j);
      }
    }
  }

  /** ... and, by uniqueness, the only such name. */
  lemma {:induction false} IsAutoNameExactly(reserved: set<String>, name: String)
    ensures IsAutoName(reserved, name) <==> name == AutoName(reserved)
  {
    AutoNameMeetsIsAutoName(reserved);
    if IsAutoName(reserved, name) {
      AutoNameUnique(reserved, name, AutoName(reserved));
    }
  }

  lemma {:induction false} SubsetSize<T>(a: set<T>, b: set<T>)
    requires a <= b
    ensures |a| <= |b|
  {
    assert b == a + (b - a);
  }

  /** The session-wide registry of reserved names (the `nombresRegistrados` set). */
  class NameRegistry {
    var reserved: set<String>

    constructor()
      ensures reserved == {}
    {
      reserved := {};
    }

    /** `registrar`: reserve the trimmed, lower-case form; idempotent. */
    method Register(name: String)
      modifies this
      ensures reserved == old(reserved) + {Key(name)}
    {
      reserved := reserved + {Key(name)};
    }

    /** `eliminar`: release the trimmed, lower-case form; idempotent. */
    method Release(name: String)
      modifies this
      ensures reserved == old(reserved) - {Key(name)}
    {
      reserved := reserved - {Key(name)};
    }

    /** `generarNombreAutomatico`: a free name, the set left as it is. */
    method GenerateAutomaticName() returns (name: String)
      ensures name == AutoName(reserved)
    {
      if BaseName !in reserved {
        return BaseName;
      }
      var suffix: nat := 2;
      while Suffixed(suffix) in reserved
        invariant suffix >= 2 && TakenBetween(reserved, 2, suffix)
        invariant FreeFrom(reserved, suffix) == FreeFrom(reserved, 2)
        decreases |reserved| + 2 - suffix
      {
        TakenBound(reserved, suffix);
        TakenExtend(reserved, 2, suffix);
        suffix := suffix + 1;
      }
      name := Suffixed(suffix);
    }
  }
}
