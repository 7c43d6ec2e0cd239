/**
 * `IRHardwareEnum`: the six kinds of IR hardware, each with the URI scheme
 * that names it and its number of IR ports. `getByValue` turns a scheme into
 * a kind the way `Enum.valueOf` would after upper-casing it and writing '_'
 * for '-'.
 */
module Hardware {
  import opened Wrappers
  import opened JavaText

  datatype HwType = GC100 | GC100_12 | GC100_6 | ITACH | IRNETBOXPRO3 | REDRAT3
  {
    /** The scheme of the constant, as its constructor received it. */
    function Scheme(): string
    {
      match this
      case GC100 => "gc100"
      case GC100_12 => "gc100-12"
      case GC100_6 => "gc100-6"
      case ITACH => "itach"
      case IRNETBOXPRO3 => "irnetboxpro3"
      case REDRAT3 => "redrat3"
    }

    function MaxPorts(): int
    {
      match this
      case GC100 => 6
      case GC100_12 => 12
      case GC100_6 => 6
      case ITACH => 3
      case IRNETBOXPRO3 => 16
      case REDRAT3 => 1
    }

    /** The Java name of the constant, which `valueOf` matches. */
    function Name(): string
    {
      match this
      case GC100 => "GC100"
      case GC100_12 => "GC100_12"
      case GC100_6 => "GC100_6"
      case ITACH => "ITACH"
      case IRNETBOXPRO3 => "IRNETBOXPRO3"
      case REDRAT3 => "REDRAT3"
    }

    /** The RedRat hub drives these; the Global Caché dispatcher drives the others. */
    predicate OnHub() { IRNETBOXPRO3? || REDRAT3? }
  }

  /** `s.replace(a, b)` for single characters. */
  function ReplaceChar(s: string, a: char, b: char): (r: string)
    ensures |r| == |s|
    ensures forall i :: 0 <= i < |s| ==> r[i] == (if s[i] == a then b else s[i])
  {
    if s == [] then [] else [if s[0] == a then b else s[0]] + ReplaceChar(s[1..], a, b)
  }

  /** `Enum.valueOf(IRHardwareEnum.class, name)`: an exact match, else IllegalArgumentException. */
  function ValueOf(name: string): (r: Result<HwType>)
    ensures r.Ok? ==> r.value.Name() == name
    ensures r.Err? ==> r.error == IllegalArgument
  {
    if name == "GC100" then Ok(GC100)
    else if name == "GC100_12" then Ok(GC100_12)
    else if name == "GC100_6" then Ok(GC100_6)
    else if name == "ITACH" then Ok(ITACH)
    else if name == "IRNETBOXPRO3" then Ok(IRNETBOXPRO3)
    else if name == "REDRAT3" then Ok(REDRAT3)
    else Err(IllegalArgument)
  }

  /** The string `getByValue` looks up. */
  function Normalize(scheme: string): string
  {
    ReplaceChar(ToUpper(scheme), '-', '_')
  }

  /** `getByValue(scheme)`; None is a null scheme, which throws a NullPointerException. */
  function GetByValue(scheme: Option<string>): (r: Result<HwType>)
    ensures scheme.None? ==> r == Err(NullPointer)
  {
    match scheme
    case None => Err(NullPointer)
    case Some(s) => ValueOf(Normalize(s))
  }

  /** `validate(scheme)`: only the IllegalArgumentException of an unknown scheme is caught. */
  function Validate(scheme: Option<string>): (r: Result<bool>)
  {
    match GetByValue(scheme)
    case Ok(_) => Ok(true)
    case Err(e) => if e == IllegalArgument then Ok(false) else Err(e)
  }

  // ------------------------------------------------------------ properties

  /** Every constant's scheme names that constant. */
  lemma SchemeRoundTrip(t: HwType)
    ensures GetByValue(Some(t.Scheme())) == Ok(t)
  {
    SchemeNormalizes(t);
    ValueOfName(t);
  }

  /** `valueOf` finds every constant by its name. */
  lemma ValueOfName(t: HwType)
    ensures ValueOf(t.Name()) == Ok(t)
  {
  }

  /** Upper-casing a constant's scheme and writing '_' for '-' gives its name. */
  lemma SchemeNormalizes(t: HwType)
    ensures Normalize(t.Scheme()) == t.Name()
  {
    var n := Normalize(t.Scheme());
    match t
    case GC100 =>
      assert n[0] == 'G' && n[1] == 'C' && n[2] == '1' && n[3] == '0' && n[4] == '0';
    case GC100_12 =>
      assert n[0] == 'G' && n[1] == 'C' && n[2] == '1' && n[3] == '0' && n[4] == '0' && n[5] == '_' && n[6] == '1' && n[7] == '2';
    case GC100_6 =>
      assert n[0] == 'G' && n[1] == 'C' && n[2] == '1' && n[3] == '0' && n[4] == '0' && n[5] == '_' && n[6] == '6';
    case ITACH =>
      assert n[0] == 'I' && n[1] == 'T' && n[2] == 'A' && n[3] == 'C' && n[4] == 'H';
    case IRNETBOXPRO3 =>
      assert n[0] == 'I' && n[1] == 'R' && n[2] == 'N' && n[3] == 'E' && n[4] == 'T' && n[5] == 'B' && n[6] == 'O' && n[7] == 'X' && n[8] == 'P' && n[9] == 'R' && n[10] == 'O' && n[11] == '3';
    case REDRAT3 =>
      assert n[0] == 'R' && n[1] == 'E' && n[2] == 'D' && n[3] == 'R' && n[4] == 'A' && n[5] == 'T' && n[6] == '3';
  }

  /** Names are distinct, so a normalised scheme matches at most one constant. */
  lemma NamesDistinct(t: HwType, u: HwType)
    requires t.Name() == u.Name()
    ensures t == u
  {
  }

  /** A scheme is accepted exactly when it normalises to the name of a constant, and then gives that constant. */
  lemma GetByValueSpec(s: string, t: HwType)
    ensures GetByValue(Some(s)) == Ok(t) <==> Normalize(s) == t.Name()
  {
    if Normalize(s) == t.Name() {
      match t
      case GC100 =>
      case GC100_12 =>
      case GC100_6 =>
      case ITACH =>
      case IRNETBOXPRO3 =>
      case REDRAT3 =>
    }
  }

  /** `validate` holds exactly for the schemes `getByValue` accepts, and never throws on a non-null scheme. */
  lemma ValidateSpec(s: string)
    ensures Validate(Some(s)) == Ok(true) <==> exists t: HwType :: Normalize(s) == t.Name()
    ensures Validate(Some(s)).Ok?
  {
    if Validate(Some(s)) == Ok(true) {
      var t := GetByValue(Some(s)).value;
      GetByValueSpec(s, t);
    }
    if exists t: HwType :: Normalize(s) == t.Name() {
      var t: HwType :| Normalize(s) == t.Name();
      GetByValueSpec(s, t);
    }
  }

  /** Upper-casing is idempotent on the ASCII letters it changes. */
  lemma UpperTwice(s: string)
    ensures ToUpper(ToUpper(s)) == ToUpper(s)
  {
    var u := ToUpper(s);
    assert forall i :: 0 <= i < |u| ==> UpperChar(u[i]) == u[i];
  }

  /** The case of the scheme does not matter: "GC100-12" gives GC100_12 as "gc100-12" does. */
  lemma GetByValueIgnoresCase(s: string)
    ensures GetByValue(Some(ToUpper(s))) == GetByValue(Some(s))
  {
    UpperTwice(s);
  }
}
