/**
 * The shared button component (Button.jsx): the `type` and `size` props are normalised to
 * one of four kinds and one of five sizes, with `primary` and `M` as defaults, and become the
 * class name `button <type> size-<size>`.
 */
module Button {
  import opened Wrappers
  import opened Text

  const TypeNames: seq<string> := ["primary", "secondary", "tertiary", "ghost"]
  const UpperTypeNames: seq<string> := ["PRIMARY", "SECONDARY", "TERTIARY", "GHOST"]
  const SizeNames: seq<string> := ["XS", "S", "M", "L", "XL"]

  /**
   * The kind as the component computes it: the prop is lower-cased, and the lower-cased
   * value is kept when its upper-cased form is one of the four upper-case names, else the
   * kind is `primary`.
   */
  function TypeAsWritten(t: string): (r: string)
    ensures r == ToLower(t) || r == "primary"
    ensures ToLower(t) in TypeNames ==> r == ToLower(t)
  {
    var lower := ToLower(t);
    assert lower in TypeNames ==> ToUpper(lower) in UpperTypeNames by {
      if lower in TypeNames {
        assert ToUpper(TypeNames[0]) == UpperTypeNames[0];
        assert ToUpper(TypeNames[1]) == UpperTypeNames[1];
        assert ToUpper(TypeNames[2]) == UpperTypeNames[2];
        assert ToUpper(TypeNames[3]) == UpperTypeNames[3];
      }
    }
    if ToUpper(lower) in UpperTypeNames then lower else "primary"
  }

  /** A long s (U+017F) is already lower case, and upper-cases to `S`: the test passes
      `ſecondary`, which then becomes the class name although it is none of the four kinds. */
  lemma TypeAsWrittenLetsThrough()
    ensures TypeAsWritten("\U{17F}econdary") == "\U{17F}econdary"
    ensures "\U{17F}econdary" !in TypeNames
  {
    var s := "\U{17F}econdary";
    assert ToLower(s) == s;
    assert ToUpper(s) == "SECONDARY";
    assert s[0] != TypeNames[1][0];
  }

  /** The kind as intended: the lower-cased prop when it is one of the four names, else
      `primary`. It is always one of the four. */
  function ButtonType(t: string): (r: string)
    ensures r in TypeNames
    ensures ToLower(t) in TypeNames ==> r == ToLower(t)
    ensures ToLower(t) !in TypeNames ==> r == "primary"
  {
    var lower := ToLower(t);
    if lower in TypeNames then lower else "primary"
  }

  /** Upper-casing and then lower-casing an ASCII string lower-cases it. */
  lemma LowerOfUpper(s: string)
    requires IsAscii(s)
    ensures ToLower(ToUpper(s)) == ToLower(s)
  {
    forall k | 0 <= k < |s| ensures LowerChar(UpperChar(s[k])) == LowerChar(s[k]) {
      assert s[k] as int < 128;
    }
  }

  /** The lower-cased form of one of the four upper-case names is the kind it names. */
  lemma LowerUpperNames()
    ensures forall k :: 0 <= k < 4 ==> ToLower(UpperTypeNames[k]) == TypeNames[k]
  {
    assert ToLower(UpperTypeNames[0]) == TypeNames[0];
    assert ToLower(UpperTypeNames[1]) == TypeNames[1];
    assert ToLower(UpperTypeNames[2]) == TypeNames[2];
    assert ToLower(UpperTypeNames[3]) == TypeNames[3];
  }

  /** On ASCII input the component's test and the intended one agree. */
  lemma TypeAgreesOnAscii(t: string)
    requires IsAscii(t)
    ensures TypeAsWritten(t) == ButtonType(t)
  {
    var lower := ToLower(t);
    if ToUpper(lower) in UpperTypeNames {
      var k :| 0 <= k < 4 && ToUpper(lower) == UpperTypeNames[k];
      assert IsAscii(lower) by {
        forall i | 0 <= i < |lower| ensures lower[i] as int < 128 {
          assert t[i] as int < 128;
        }
      }
      LowerOfUpper(lower);
      ToLowerIdempotent(t);
      LowerUpperNames();
      assert lower == TypeNames[k];
    }
  }

  /** The kind does not depend on the case of an ASCII prop. */
  lemma TypeIgnoresCase(t: string)
    requires IsAscii(t)
    ensures ButtonType(ToUpper(t)) == ButtonType(t)
  {
    LowerOfUpper(t);
  }

  /** Normalising a normalised kind changes nothing. */
  lemma TypeIdempotent(t: string)
    ensures ButtonType(ButtonType(t)) == ButtonType(t)
  {
    var r := ButtonType(t);
    assert ToLower(TypeNames[0]) == TypeNames[0];
    assert ToLower(TypeNames[1]) == TypeNames[1];
    assert ToLower(TypeNames[2]) == TypeNames[2];
    assert ToLower(TypeNames[3]) == TypeNames[3];
  }

  /** The size: the upper-cased prop when it is one of the five sizes, else `M`. */
  function ButtonSize(s: string): (r: string)
    ensures r in SizeNames
    ensures ToUpper(s) in SizeNames ==> r == ToUpper(s)
    ensures ToUpper(s) !in SizeNames ==> r == "M"
  {
    var upper := ToUpper(s);
    if upper in SizeNames then upper else "M"
  }

  /** Normalising a normalised size changes nothing. */
  lemma SizeIdempotent(s: string)
    ensures ButtonSize(ButtonSize(s)) == ButtonSize(s)
  {
    assert ToUpper(SizeNames[0]) == SizeNames[0];
    assert ToUpper(SizeNames[1]) == SizeNames[1];
    assert ToUpper(SizeNames[2]) == SizeNames[2];
    assert ToUpper(SizeNames[3]) == SizeNames[3];
    assert ToUpper(SizeNames[4]) == SizeNames[4];
  }

  /** The class name as the component builds it, from the kind as written; a missing prop
      takes its default (`primary`, `M`). Props that are already a kind and a size go
      through unchanged. */
  function ClassNameAsWritten(t: Option<string>, size: Option<string>): (r: string)
    ensures ToLower(t.GetOr("primary")) in TypeNames && ToUpper(size.GetOr("M")) in SizeNames ==>
              r == "button " + ToLower(t.GetOr("primary")) + " size-" + ToUpper(size.GetOr("M"))
  {
    "button " + TypeAsWritten(t.GetOr("primary")) + " size-" + ButtonSize(size.GetOr("M"))
  }

  /** A kind the component keeps as it is, with the default size, gives `button <kind> size-M`. */
  lemma ClassNameOfKept(t: string)
    requires TypeAsWritten(t) == t
    ensures ClassNameAsWritten(Some(t), None) == "button " + t + " size-M"
  {
    assert ButtonSize("M") == "M" by {
      assert ToUpper("M") == "M";
    }
  }

  /** The class name of `type="ſecondary"` names no kind of button. */
  lemma ClassNameAsWrittenLetsThrough()
    ensures ClassNameAsWritten(Some("\U{17F}econdary"), None) == "button \U{17F}econdary size-M"
  {
    TypeAsWrittenLetsThrough();
    ClassNameOfKept("\U{17F}econdary");
  }

  /** The class name as intended, from `ButtonType`. Props that are already a kind and a
      size go through unchanged. */
  function ClassName(t: Option<string>, size: Option<string>): (r: string)
    ensures ToLower(t.GetOr("primary")) in TypeNames && ToUpper(size.GetOr("M")) in SizeNames ==>
              r == "button " + ToLower(t.GetOr("primary")) + " size-" + ToUpper(size.GetOr("M"))
  {
    "button " + ButtonType(t.GetOr("primary")) + " size-" + ButtonSize(size.GetOr("M"))
  }

  /** Every intended class name is `button <kind> size-<size>` for one of the four kinds and
      one of the five sizes; on ASCII props it is the class name the component builds. */
  lemma ClassNameShape(t: Option<string>, size: Option<string>)
    ensures exists k, j :: 0 <= k < |TypeNames| && 0 <= j < |SizeNames| &&
              ClassName(t, size) == "button " + TypeNames[k] + " size-" + SizeNames[j]
    ensures IsAscii(t.GetOr("primary")) ==> ClassNameAsWritten(t, size) == ClassName(t, size)
  {
    var kind := ButtonType(t.GetOr("primary"));
    var sz := ButtonSize(size.GetOr("M"));
    var k :| 0 <= k < |TypeNames| && TypeNames[k] == kind;
    var j :| 0 <= j < |SizeNames| && SizeNames[j] == sz;
    assert ClassName(t, size) == "button " + TypeNames[k] + " size-" + SizeNames[j];
    if IsAscii(t.GetOr("primary")) {
      TypeAgreesOnAscii(t.GetOr("primary"));
    }
  }

  /** Without props the button is a primary one of size M. */
  lemma DefaultClassName()
    ensures ClassNameAsWritten(None, None) == "button primary size-M"
    ensures ClassName(None, None) == "button primary size-M"
  {
    assert ButtonSize("M") == "M" by {
      assert ToUpper("M") == "M";
    }
    assert ButtonType("primary") == "primary" by {
      assert ToLower("primary") == "primary";
    }
    assert TypeAsWritten("primary") == "primary" by {
      assert ToLower("primary") == "primary";
    }
  }
}
