/** Severity classification done by the error handler: a PHP error code
    (one of the E_* constants, or any other integer) is mapped to one of six
    labels shown in the banner. The `switch` is modelled as its ordered list of
    arms, each arm a group of fall-through `case` values sharing one label,
    with `default` when no arm matches. */
module Severity {

  // PHP's predefined error-level constants.
  const E_ERROR: int := 1
  const E_WARNING: int := 2
  const E_PARSE: int := 4
  const E_NOTICE: int := 8
  const E_CORE_ERROR: int := 16
  const E_CORE_WARNING: int := 32
  const E_COMPILE_ERROR: int := 64
  const E_COMPILE_WARNING: int := 128
  const E_USER_ERROR: int := 256
  const E_USER_WARNING: int := 512
  const E_USER_NOTICE: int := 1024
  const E_STRICT: int := 2048
  const E_RECOVERABLE_ERROR: int := 4096
  const E_DEPRECATED: int := 8192
  const E_USER_DEPRECATED: int := 16384

  datatype Label = FatalError | Warning | Notice | Strict | Deprecated | UnknownError

  /** The text printed in the banner for each label. */
  function LabelText(l: Label): string
  {
    match l
    case FatalError => "Fatal Error"
    case Warning => "Warning"
    case Notice => "Notice"
    case Strict => "Strict"
    case Deprecated => "Deprecated"
    case UnknownError => "Unknown error"
  }

  /** One arm of the switch: the `case` values that fall through to one assignment. */
  datatype Arm = Arm(cases: seq<int>, assigns: Label)

  /** The arms of the switch, in source order. */
  const Arms: seq<Arm> := [
    Arm([E_PARSE, E_ERROR, E_CORE_ERROR, E_COMPILE_ERROR, E_USER_ERROR], FatalError),
    Arm([E_WARNING, E_USER_WARNING, E_COMPILE_WARNING, E_RECOVERABLE_ERROR], Warning),
    Arm([E_NOTICE, E_USER_NOTICE], Notice),
    Arm([E_STRICT], Strict),
    Arm([E_DEPRECATED, E_USER_DEPRECATED], Deprecated)
  ]

  /** Evaluates a switch: the label of the first arm listing `code`, else `default`. */
  function Dispatch(arms: seq<Arm>, code: int, default: Label): Label
  {
    if |arms| == 0 then default
    else if code in arms[0].cases then arms[0].assigns
    else Dispatch(arms[1..], code, default)
  }

  /** Switch semantics: the first arm listing the code decides the label,
      and a code listed by no arm gets the default. */
  lemma {:induction false} DispatchFirstMatch(arms: seq<Arm>, code: int, default: Label)
    ensures forall i :: (0 <= i < |arms| && code in arms[i].cases
                         && forall j :: 0 <= j < i ==> code !in arms[j].cases)
                        ==> Dispatch(arms, code, default) == arms[i].assigns
    ensures (forall i :: 0 <= i < |arms| ==> code !in arms[i].cases) ==> Dispatch(arms, code, default) == default
    decreases |arms|
  {
    if |arms| > 0 && code !in arms[0].cases {
      var rest := arms[1..];
      DispatchFirstMatch(rest, code, default);
      assert Dispatch(arms, code, default) == Dispatch(rest, code, default);
      forall i | 0 < i < |arms| && code in arms[i].cases && forall j :: 0 <= j < i ==> code !in arms[j].cases
        ensures Dispatch(arms, code, default) == arms[i].assigns
      {
        assert rest[i - 1] == arms[i];
        assert forall j :: 0 <= j < i - 1 ==> code !in rest[j].cases by {
          assert forall j :: 0 <= j < i - 1 ==> rest[j] == arms[j + 1];
        }
      }
      assert (forall i :: 0 <= i < |arms| ==> code !in arms[i].cases)
             ==> (forall i :: 0 <= i < |rest| ==> code !in rest[i].cases);
    }
  }

  // The codes each label is promised for, stated independently of the switch.
  const FatalCodes: set<int> := {E_PARSE, E_ERROR, E_CORE_ERROR, E_COMPILE_ERROR, E_USER_ERROR}
  const WarningCodes: set<int> := {E_WARNING, E_USER_WARNING, E_COMPILE_WARNING, E_RECOVERABLE_ERROR}
  const NoticeCodes: set<int> := {E_NOTICE, E_USER_NOTICE}
  const StrictCodes: set<int> := {E_STRICT}
  const DeprecatedCodes: set<int> := {E_DEPRECATED, E_USER_DEPRECATED}
  const RecognizedCodes: set<int> := FatalCodes + WarningCodes + NoticeCodes + StrictCodes + DeprecatedCodes

  /** The classification made by `errorHandler`, total over all integers:
      each label is produced for exactly its documented codes, and every
      other integer, recognised by PHP or not, gets "Unknown error". */
  function Classify(code: int): (l: Label)
    ensures l == FatalError <==> code in FatalCodes
    ensures l == Warning <==> code in WarningCodes
    ensures l == Notice <==> code in NoticeCodes
    ensures l == Strict <==> code in StrictCodes
    ensures l == Deprecated <==> code in DeprecatedCodes
    ensures l == UnknownError <==> code !in RecognizedCodes
  {
    DispatchArms(code);
    Dispatch(Arms, code, UnknownError)
  }

  /** Each arm of the switch lists exactly the codes of its label. */
  lemma ArmsListCodes(code: int)
    ensures code in Arms[0].cases <==> code in FatalCodes
    ensures code in Arms[1].cases <==> code in WarningCodes
    ensures code in Arms[2].cases <==> code in NoticeCodes
    ensures code in Arms[3].cases <==> code in StrictCodes
    ensures code in Arms[4].cases <==> code in DeprecatedCodes
  {
  }

  /** The switch, read arm by arm: each code is tested against the arms in
      order until one lists it. */
  lemma DispatchArms(code: int)
    ensures var l := Dispatch(Arms, code, UnknownError);
            && (code in FatalCodes ==> l == FatalError)
            && (code in WarningCodes ==> l == Warning)
            && (code in NoticeCodes ==> l == Notice)
            && (code in StrictCodes ==> l == Strict)
            && (code in DeprecatedCodes ==> l == Deprecated)
            && (code !in RecognizedCodes ==> l == UnknownError)
  {
    ArmsListCodes(code);
    var a1 := Arms[1..];
    var a2 := a1[1..];
    var a3 := a2[1..];
    var a4 := a3[1..];
    if code !in FatalCodes {
      DispatchSkip(Arms, code, UnknownError);
      if code !in WarningCodes {
        DispatchSkip(a1, code, UnknownError);
        if code !in NoticeCodes {
          DispatchSkip(a2, code, UnknownError);
          if code !in StrictCodes {
            DispatchSkip(a3, code, UnknownError);
            if code !in DeprecatedCodes {
              DispatchSkip(a4, code, UnknownError);
            }
          }
        }
      }
    }
  }

  /** An arm that does not list the code passes it on to the arms after it. */
  lemma DispatchSkip(arms: seq<Arm>, code: int, default: Label)
    requires |arms| > 0 && code !in arms[0].cases
    ensures Dispatch(arms, code, default) == Dispatch(arms[1..], code, default)
  {
  }

  /** E_CORE_WARNING is not listed in any arm and so falls to the default label. */
  lemma CoreWarningIsUnknown()
    ensures Classify(E_CORE_WARNING) == UnknownError
    ensures LabelText(Classify(E_CORE_WARNING)) == "Unknown error"
  {
  }

  /** Distinct labels are printed as distinct texts, so the banner identifies the class. */
  lemma LabelTextInjective(a: Label, b: Label)
    ensures LabelText(a) == LabelText(b) ==> a == b
  {
  }
}
