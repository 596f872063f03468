/**
 * The FizzBuzz script, generalised from its literal bound to a parameter n.
 */
module FizzBuzz {
  import opened Enumerable
  import opened Arith

  /** The Ruby objects that can land in the `result` array. */
  datatype Value = Bool(b: bool) | Num(n: int) | Str(s: string)

  /**
   * The interpolated `output` string for k. Only a zero remainder is tested,
   * so Ruby's floored `%` and Dafny's Euclidean `%` agree here for every k.
   */
  function Output(k: int): string
  {
    (if k % 3 == 0 then "Fizz" else "") + (if k % 5 == 0 then "Buzz" else "")
  }

  lemma OutputCases(k: int)
    ensures Output(k) == "FizzBuzz" <==> k % 3 == 0 && k % 5 == 0
    ensures Output(k) == "Fizz" <==> k % 3 == 0 && k % 5 != 0
    ensures Output(k) == "Buzz" <==> k % 5 == 0 && k % 3 != 0
    ensures Output(k) == "" <==> k % 3 != 0 && k % 5 != 0
  {
    assert "Fizz" + "" == "Fizz";
    assert "" + "Buzz" == "Buzz";
    assert "" + "" == "";
  }

  /** `output.empty? ? k : output`: the element each k is meant to contribute. */
  function Intended(k: int): Value
  {
    var output := Output(k);
    if output == "" then Num(k) else Str(output)
  }

  lemma Mod15(k: int)
    ensures k % 15 == 0 <==> k % 3 == 0 && k % 5 == 0
  {
    if k % 15 == 0 {
      var q := k / 15;
      assert k == 3 * (5 * q) && k == 5 * (3 * q);
      ModMultiple(3, 5 * q);
      ModMultiple(5, 3 * q);
    }
    if k % 3 == 0 && k % 5 == 0 {
      var a, b := k / 3, k / 5;
      assert k == 3 * a && k == 5 * b;
      // From 3a == 5b: 15(2a - 3b) == 30a - 45b == 30a - 27a == 3a == k.
      assert k == 15 * (2 * a - 3 * b);
      ModMultiple(15, 2 * a - 3 * b);
    }
  }

  /** The intended element, in the terms of the four FizzBuzz tags. */
  lemma IntendedCases(k: int)
    ensures Intended(k) == Str("FizzBuzz") <==> k % 15 == 0
    ensures Intended(k) == Str("Fizz") <==> k % 3 == 0 && k % 5 != 0
    ensures Intended(k) == Str("Buzz") <==> k % 5 == 0 && k % 3 != 0
    ensures Intended(k) == Num(k) <==> k % 3 != 0 && k % 5 != 0
    ensures !Intended(k).Bool?
  {
    OutputCases(k);
    Mod15(k);
  }

  /** The commented-out `(1..n).map do |k| ... end` version. */
  function Mapped(n: int): seq<Value>
  {
    Map(Range(1, n), Intended)
  }

  /** The map version yields one intended element per k in 1..n, in order. */
  lemma MappedElements(n: int)
    ensures |Mapped(n)| == if n >= 1 then n else 0
    ensures forall i :: 0 <= i < |Mapped(n)| ==> Mapped(n)[i] == Intended(i + 1)
  {
  }

  /** The intended elements for 1..15, split into groups of five only to keep each proof small. */
  lemma IntendedFrom1()
    ensures Intended(1) == Num(1)
    ensures Intended(2) == Num(2)
    ensures Intended(3) == Str("Fizz")
    ensures Intended(4) == Num(4)
    ensures Intended(5) == Str("Buzz")
  {
    OutputCases(1);
    OutputCases(2);
    OutputCases(3);
    OutputCases(4);
    OutputCases(5);
  }

  lemma IntendedFrom6()
    ensures Intended(6) == Str("Fizz")
    ensures Intended(7) == Num(7)
    ensures Intended(8) == Num(8)
    ensures Intended(9) == Str("Fizz")
    ensures Intended(10) == Str("Buzz")
  {
    OutputCases(6);
    OutputCases(7);
    OutputCases(8);
    OutputCases(9);
    OutputCases(10);
  }

  lemma IntendedFrom11()
    ensures Intended(11) == Num(11)
    ensures Intended(12) == Str("Fizz")
    ensures Intended(13) == Num(13)
    ensures Intended(14) == Num(14)
    ensures Intended(15) == Str("FizzBuzz")
  {
    OutputCases(11);
    OutputCases(12);
    OutputCases(13);
    OutputCases(14);
    OutputCases(15);
  }

  /** The sequence the map version yields for n = 15: 1, 2, Fizz, 4, Buzz, ..., 14, FizzBuzz. */
  lemma Fifteen()
    ensures |Mapped(15)| == 15
    ensures Mapped(15)[0] == Num(1) && Mapped(15)[1] == Num(2) && Mapped(15)[2] == Str("Fizz") && Mapped(15)[3] == Num(4) && Mapped(15)[4] == Str("Buzz")
    ensures Mapped(15)[5] == Str("Fizz") && Mapped(15)[6] == Num(7) && Mapped(15)[7] == Num(8) && Mapped(15)[8] == Str("Fizz") && Mapped(15)[9] == Str("Buzz")
    ensures Mapped(15)[10] == Num(11) && Mapped(15)[11] == Str("Fizz") && Mapped(15)[12] == Num(13) && Mapped(15)[13] == Num(14) && Mapped(15)[14] == Str("FizzBuzz")
  {
    MappedElements(15);
    IntendedFrom1();
    IntendedFrom6();
    IntendedFrom11();
  }

  /**
   * The loop as written: `result << output.empty? ? k : output` parses as
   * `(result << output.empty?) ? k : output`, so each step appends the boolean
   * `output.empty?` and the value of the conditional is thrown away.
   */
  method FizzBuzzAsWritten(n: int) returns (result: seq<Value>)
    ensures |result| == if n >= 1 then n else 0
    ensures forall i :: 0 <= i < |result| ==> result[i] == Bool(Output(i + 1) == "")
    ensures forall i :: 0 <= i < |result| ==> result[i] != Mapped(n)[i]
  {
    result := [];
    var k := 1;
    while k <= n
      invariant 1 <= k <= if n >= 1 then n + 1 else 1
      invariant |result| == k - 1
      invariant forall i :: 0 <= i < |result| ==> result[i] == Bool(Output(i + 1) == "")
    {
      var output := Output(k);
      result := result + [Bool(output == "")];
      k := k + 1;
    }
    forall i | 0 <= i < |result|
      ensures result[i] != Mapped(n)[i]
    {
      assert Mapped(n)[i] == Intended(i + 1);
    }
  }

  /** The loop with the intended element appended: it builds what the map version returns. */
  method FizzBuzz(n: int) returns (result: seq<Value>)
    ensures |result| == if n >= 1 then n else 0
    ensures forall i :: 0 <= i < |result| ==> result[i] == Intended(i + 1)
    ensures result == Mapped(n)
  {
    result := [];
    var k := 1;
    while k <= n
      invariant 1 <= k <= if n >= 1 then n + 1 else 1
      invariant |result| == k - 1
      invariant forall i :: 0 <= i < |result| ==> result[i] == Intended(i + 1)
    {
      var output := Output(k);
      result := result + [if output == "" then Num(k) else Str(output)];
      k := k + 1;
    }
  }
}
