/** Decimal suffixes: instance topics `base[3]` and repeated labels `base#2`. */
module Names {
  import opened Prelude

  const U32_MAX: nat := 0xFFFF_FFFF

  function Digit(d: nat): char
    requires d < 10
  {
    ('0' as int + d) as char
  }

  predicate IsDigit(c: char) {
    '0' <= c <= '9'
  }

  function DigitsOf(n: nat): (s: string)
    ensures s != [] && forall i :: 0 <= i < |s| ==> IsDigit(s[i])
  {
    if n < 10 then [Digit(n)] else DigitsOf(n / 10) + [Digit(n % 10)]
  }

  predicate AllDigits(s: string) {
    forall i :: 0 <= i < |s| ==> IsDigit(s[i])
  }

  function NumberOf(s: string): nat
    requires AllDigits(s)
  {
    if s == [] then 0 else NumberOf(s[..|s| - 1]) * 10 + (s[|s| - 1] as int - '0' as int)
  }

  lemma {:induction false} NumberBack(n: nat)
    ensures NumberOf(DigitsOf(n)) == n
  {
    if n < 10 {
      assert DigitsOf(n)[..0] == [];
    } else {
      NumberBack(n / 10);
      var s := DigitsOf(n);
      assert s[..|s| - 1] == DigitsOf(n / 10);
    }
  }

  lemma SuffixesDiffer(base: string, m: nat, n: nat)
    requires m != n
    ensures base + "#" + DigitsOf(m) != base + "#" + DigitsOf(n)
  {
    NumberBack(m);
    NumberBack(n);
    var p := base + "#";
    assert (p + DigitsOf(m))[|p|..] == DigitsOf(m);
    assert (p + DigitsOf(n))[|p|..] == DigitsOf(n);
  }

  /** `rfind`: the last place of `c`, or the length. */
  function LastIndexOf(s: string, c: char): (i: nat)
    ensures i <= |s|
    ensures i < |s| ==> s[i] == c && forall j :: i < j < |s| ==> s[j] != c
    ensures i == |s| ==> forall j :: 0 <= j < |s| ==> s[j] != c
  {
    if s == [] then 0
    else
      var n := |s| - 1;
      if s[n] == c then n
      else
        var i := LastIndexOf(s[..n], c);
        if i == n then |s| else i
  }

  function InstanceName(base: string, instance: nat): string {
    base + "[" + DigitsOf(instance) + "]"
  }

  function ParseInstance(name: string): (string, Option<nat>) {
    var open := LastIndexOf(name, '[');
    if open == |name| || name[|name| - 1] != ']' || open == 0 then (name, None)
    else
      var digits := name[open + 1..|name| - 1];
      if digits == [] || !AllDigits(digits) || NumberOf(digits) > U32_MAX then (name, None)
      else (name[..open], Some(NumberOf(digits)))
  }

  /** An instance name parses back exactly when the topic has a name. */
  lemma InstanceNameBack(base: string, instance: nat)
    requires instance <= U32_MAX
    ensures ParseInstance(InstanceName(base, instance)) == (base, Some(instance)) <==> base != ""
  {
    BracketsFound(base, DigitsOf(instance));
    NumberBack(instance);
  }

  /** A base, not empty, and then digits in brackets. */
  predicate IsInstance(name: string, base: string, digits: string) {
    name == base + "[" + digits + "]" && base != "" && digits != "" && AllDigits(digits)
  }

  /** A name is read as an instance exactly if it is one and the digits make a
      number of 32 bits; every other name stands for itself. */
  lemma ParsedExactly(name: string)
    ensures forall base, digits :: IsInstance(name, base, digits) ==>
              ParseInstance(name) ==
              if NumberOf(digits) <= 0xFFFF_FFFF then (base, Some(NumberOf(digits))) else (name, None)
    ensures ParseInstance(name).1.Some? ==> exists digits :: IsInstance(name, ParseInstance(name).0, digits)
    ensures ParseInstance(name).1.None? ==> ParseInstance(name).0 == name
  {
    hide IsInstance;
    forall base, digits | IsInstance(name, base, digits)
      ensures AllDigits(digits)
      ensures ParseInstance(name) ==
              if NumberOf(digits) <= 0xFFFF_FFFF then (base, Some(NumberOf(digits))) else (name, None)
    {
      InstanceRead(name, base, digits);
    }
    if ParseInstance(name).1.Some? {
      ReadIsInstance(name);
    }
  }

  lemma InstanceRead(name: string, base: string, digits: string)
    requires IsInstance(name, base, digits)
    ensures AllDigits(digits)
    ensures ParseInstance(name) ==
            if NumberOf(digits) <= 0xFFFF_FFFF then (base, Some(NumberOf(digits))) else (name, None)
  {
    BracketsFound(base, digits);
  }

  lemma ReadIsInstance(name: string)
    requires ParseInstance(name).1.Some?
    ensures exists digits :: IsInstance(name, ParseInstance(name).0, digits)
  {
    var open := LastIndexOf(name, '[');
    var digits := name[open + 1..|name| - 1];
    assert name == name[..open] + "[" + digits + "]";
    assert IsInstance(name, name[..open], digits);
  }

  lemma BracketsFound(base: string, digits: string)
    requires AllDigits(digits)
    ensures var name := base + "[" + digits + "]";
            && LastIndexOf(name, '[') == |base| && name[|name| - 1] == ']'
            && name[|base| + 1..|name| - 1] == digits && name[..|base|] == base
  {
    var name := base + "[" + digits + "]";
    assert name[|base|] == '[' && name[|base| + 1..|name| - 1] == digits;
    forall j | |base| < j < |name|
      ensures name[j] != '['
    {
      if j < |name| - 1 {
        assert name[j] == digits[j - |base| - 1] && IsDigit(name[j]);
      }
    }
  }
}
