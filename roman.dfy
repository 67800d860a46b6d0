/** The `romano` template filter of `homepage/templatetags/roman.py`. The
    filter accepts any value; `int(value)` is Python's conversion, which is
    not modelled: its outcome is an input, `None` standing for the
    `TypeError` or `ValueError` it raises. */
module Roman {
  import opened Wrappers

  /** What the filter returns: a numeral, the integer the value converted
      to, or the value itself. */
  datatype Output<V> = Numeral(text: string) | Number(n: int) | Unchanged(value: V)

  /** `romanos`. */
  const Numerals: map<int, string> :=
    map[1 := "I", 2 := "II", 3 := "III", 4 := "IV", 5 := "V",
        6 := "VI", 7 := "VII", 8 := "VIII", 9 := "IX", 10 := "X"]

  /** `romano(value)`, where `converted` is what `int(value)` gives. */
  function Romano<V>(value: V, converted: Option<int>): (r: Output<V>)
    ensures converted.None? ==> r == Unchanged(value)
    ensures converted.Some? && (converted.value < 1 || 10 < converted.value) ==> r == Number(converted.value)
    ensures r.Numeral? <==> converted.Some? && 1 <= converted.value <= 10
  {
    if converted.None? then Unchanged(value)
    else
      var n := converted.value;
      if n in Numerals then Numeral(Numerals[n]) else Number(n)
  }

  // ---------------------------------------------------------------------
  // Reading a numeral back

  /** The value of a Roman digit; 0 for any other character. */
  function DigitValue(c: char): nat {
    if c == 'I' then 1 else if c == 'V' then 5 else if c == 'X' then 10
    else if c == 'L' then 50 else if c == 'C' then 100 else if c == 'D' then 500
    else if c == 'M' then 1000 else 0
  }

  /** The value of a numeral in the subtractive notation: a digit followed
      by a larger one counts negatively. */
  function NumeralValue(s: string): int {
    if s == [] then 0
    else if |s| >= 2 && DigitValue(s[0]) < DigitValue(s[1]) then NumeralValue(s[1..]) - DigitValue(s[0])
    else NumeralValue(s[1..]) + DigitValue(s[0])
  }

  /** Each of the numbers 1 to 10 becomes its numeral, which is written with
      `I`, `V` and `X` only and reads back as that number. */
  lemma RomanoNumerals<V>(value: V, n: int)
    requires 1 <= n <= 10
    ensures Romano(value, Some(n)).Numeral?
    ensures var s := Romano(value, Some(n)).text;
            && s != []
            && (forall i :: 0 <= i < |s| ==> s[i] in "IVX")
            && NumeralValue(s) == n
  {
    var s := Numerals[n];
    if n == 1 {
      assert s == "I";
    } else if n == 2 {
      assert s == "II";
      assert NumeralValue(s[1..]) == 1;
    } else if n == 3 {
      assert s == "III";
      assert s[1..] == "II" && s[2..] == "I";
      assert NumeralValue("I") == 1;
      assert NumeralValue("II") == 2;
    } else if n == 4 {
      assert s == "IV";
      assert s[1..] == "V";
      assert NumeralValue("V") == 5;
    } else if n == 5 {
      assert s == "V";
    } else if n == 6 {
      assert s == "VI";
      assert s[1..] == "I";
      assert NumeralValue("I") == 1;
    } else if n == 7 {
      assert s == "VII";
      assert s[1..] == "II" && s[2..] == "I";
      assert NumeralValue("I") == 1;
      assert NumeralValue("II") == 2;
    } else if n == 8 {
      assert s == "VIII";
      assert s[1..] == "III" && s[2..] == "II" && s[3..] == "I";
      assert NumeralValue("I") == 1;
      assert NumeralValue("II") == 2;
      assert NumeralValue("III") == 3;
    } else if n == 9 {
      assert s == "IX";
      assert s[1..] == "X";
      assert NumeralValue("X") == 10;
    } else {
      assert s == "X";
    }
  }

  /** Distinct numbers from 1 to 10 get distinct numerals. */
  lemma NumeralsDistinct<V>(value: V, a: int, b: int)
    requires 1 <= a <= 10 && 1 <= b <= 10 && a != b
    ensures Romano(value, Some(a)) != Romano(value, Some(b))
  {
    RomanoNumerals(value, a);
    RomanoNumerals(value, b);
  }
}
