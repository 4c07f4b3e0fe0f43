/** The string operations the bridge relies on: JavaScript's `split` and `join` with a
    one-character separator, the code-unit order a database uses for `ORDER BY id`,
    and the decimal rendering `Number.prototype.toString` gives integers. */
module Text {
  import opened Optional

  // ---------------------------------------------------------------------------
  // split / join

  /** The pieces of `s` between occurrences of `d`, as `s.split(d)` returns them:
      never an empty list, and empty pieces are kept. */
  function Split(s: string, d: char): (parts: seq<string>)
    ensures |parts| >= 1
    decreases |s|
  {
    if s == [] then [""]
    else
      var rest := Split(s[1..], d);
      if s[0] == d then [""] + rest
      else [[s[0]] + rest[0]] + rest[1..]
  }

  /** `parts.join(d)`: the pieces with `d` between each neighbouring pair. */
  function Join(parts: seq<string>, d: char): string
    requires |parts| >= 1
    decreases |parts|
  {
    if |parts| == 1 then parts[0] else parts[0] + [d] + Join(parts[1..], d)
  }

  /** Joining the pieces again gives back the original text. */
  lemma {:induction false} JoinSplit(s: string, d: char)
    ensures Join(Split(s, d), d) == s
    decreases |s|
  {
    if s != [] {
      JoinSplit(s[1..], d);
      var rest := Split(s[1..], d);
      if s[0] == d {
        assert ([""] + rest)[1..] == rest;
      } else if |rest| > 1 {
        var parts := [[s[0]] + rest[0]] + rest[1..];
        assert parts[1..] == rest[1..];
      }
      assert s == [s[0]] + s[1..];
    }
  }

  /** No piece contains the separator. */
  lemma {:induction false} SplitPiecesFree(s: string, d: char)
    ensures forall p :: p in Split(s, d) ==> d !in p
    decreases |s|
  {
    if s != [] {
      SplitPiecesFree(s[1..], d);
      var rest := Split(s[1..], d);
      if s[0] != d {
        assert rest[0] in rest;
        forall p | p in rest[1..] ensures d !in p {
          assert p in rest;
        }
      }
    }
  }

  /** Splitting text whose first piece `a` holds no separator yields `a` glued to
      the first piece of the remainder. */
  lemma {:induction false} SplitPrefix(a: string, t: string, d: char)
    requires d !in a
    ensures Split(a + t, d) == [a + Split(t, d)[0]] + Split(t, d)[1..]
    decreases |a|
  {
    if a == [] {
      assert a + t == t;
      assert a + Split(t, d)[0] == Split(t, d)[0];
      assert [Split(t, d)[0]] + Split(t, d)[1..] == Split(t, d);
    } else {
      SplitPrefix(a[1..], t, d);
      assert (a + t)[0] == a[0];
      assert (a + t)[1..] == a[1..] + t;
      assert [a[0]] + (a[1..] + Split(t, d)[0]) == a + Split(t, d)[0];
    }
  }

  /** Splitting a join of separator-free pieces gives back exactly those pieces. */
  lemma {:induction false} SplitJoin(parts: seq<string>, d: char)
    requires |parts| >= 1
    requires forall p :: p in parts ==> d !in p
    ensures Split(Join(parts, d), d) == parts
    decreases |parts|
  {
    assert parts[0] in parts;
    if |parts| == 1 {
      SplitPrefix(parts[0], "", d);
      assert parts[0] + "" == parts[0];
      assert parts == [parts[0]];
    } else {
      forall p | p in parts[1..] ensures d !in p {
        assert p in parts;
      }
      SplitJoin(parts[1..], d);
      var rest := Join(parts[1..], d);
      SplitPrefix(parts[0], [d] + rest, d);
      assert ([d] + rest)[0] == d && ([d] + rest)[1..] == rest;
      assert Split([d] + rest, d) == [""] + parts[1..];
      assert parts[0] + "" == parts[0];
      assert parts[0] + [d] + rest == parts[0] + ([d] + rest);
      assert parts == [parts[0]] + parts[1..];
    }
  }

  /** The first piece is the text before the first separator (all of `s` when there is
      none), and a second piece exists exactly when `s` holds a separator. */
  lemma {:induction false} SplitHead(s: string, d: char)
    ensures Split(s, d)[0] <= s
    ensures d !in Split(s, d)[0]
    ensures |Split(s, d)| > 1 <==> d in s
    ensures |Split(s, d)[0]| < |s| <==> d in s
    ensures |Split(s, d)[0]| < |s| ==> s[|Split(s, d)[0]|] == d
    decreases |s|
  {
    if s != [] {
      SplitHead(s[1..], d);
      assert s == [s[0]] + s[1..];
    }
  }

  // ---------------------------------------------------------------------------
  // ordering of ids

  /** `a` sorts strictly before `b`, comparing code units from the left; a proper
      prefix sorts first. */
  predicate Below(a: string, b: string)
    decreases |a|
  {
    if a == [] then b != []
    else if b == [] then false
    else if a[0] != b[0] then a[0] < b[0]
    else Below(a[1..], b[1..])
  }

  lemma {:induction false} BelowIrreflexive(a: string)
    ensures !Below(a, a)
    decreases |a|
  {
    if a != [] {
      BelowIrreflexive(a[1..]);
    }
  }

  lemma {:induction false} BelowTransitive(a: string, b: string, c: string)
    requires Below(a, b) && Below(b, c)
    ensures Below(a, c)
    decreases |a|
  {
    if a != [] && a[0] == b[0] && b[0] == c[0] {
      BelowTransitive(a[1..], b[1..], c[1..]);
    }
  }

  lemma {:induction false} BelowTotal(a: string, b: string)
    ensures a == b || Below(a, b) || Below(b, a)
    decreases |a|
  {
    if a != [] && b != [] && a[0] == b[0] {
      BelowTotal(a[1..], b[1..]);
      if a[1..] == b[1..] {
        assert a == [a[0]] + a[1..] && b == [b[0]] + b[1..];
      }
    }
  }

  /** Every non-empty finite set of ids has a least one. */
  lemma {:induction false} LeastExists(s: set<string>) returns (m: string)
    requires s != {}
    ensures m in s
    ensures forall o :: o in s && o != m ==> Below(m, o)
    decreases s
  {
    var x :| x in s;
    if s == {x} {
      m := x;
    } else {
      var least := LeastExists(s - {x});
      BelowTotal(x, least);
      if Below(x, least) {
        m := x;
        forall o | o in s && o != m ensures Below(m, o) {
          if o != least {
            BelowTransitive(x, least, o);
          }
        }
      } else {
        m := least;
      }
    }
  }

  // ---------------------------------------------------------------------------
  // decimal rendering of integers

  predicate IsDigit(c: char) {
    '0' <= c <= '9'
  }

  function DigitChar(n: nat): (c: char)
    requires n < 10
    ensures IsDigit(c) && c as int - '0' as int == n
  {
    (n + '0' as int) as char
  }

  /** `n.toString()` for a non-negative integer: digits only, no leading zero. */
  function NatToDecimal(n: nat): (s: string)
    ensures |s| >= 1
    ensures forall c :: c in s ==> IsDigit(c)
    ensures |s| > 1 ==> s[0] != '0'
    decreases n
  {
    if n < 10 then [DigitChar(n)] else NatToDecimal(n / 10) + [DigitChar(n % 10)]
  }

  /** The number a string of digits denotes. */
  function DigitsValue(s: string): nat
    requires forall c :: c in s ==> IsDigit(c)
    decreases |s|
  {
    if s == [] then 0
    else
      var last := s[|s| - 1];
      assert last in s && IsDigit(last);
      assert last as int >= '0' as int;
      DigitsValue(s[..|s| - 1]) * 10 + (last as int - '0' as int)
  }

  lemma {:induction false} NatDecimalRoundTrip(n: nat)
    ensures DigitsValue(NatToDecimal(n)) == n
    decreases n
  {
    if n >= 10 {
      NatDecimalRoundTrip(n / 10);
      var s := NatToDecimal(n);
      assert s[..|s| - 1] == NatToDecimal(n / 10);
    }
  }

  /** `i.toString()` for any integer: a minus sign exactly for a negative integer,
      then digits. */
  function IntToDecimal(i: int): (s: string)
    ensures |s| >= 1
    ensures s[0] == '-' <==> i < 0
    ensures forall k :: 1 <= k < |s| ==> IsDigit(s[k])
  {
    if i < 0 then
      var digits := NatToDecimal(-i);
      assert forall k :: 0 <= k < |digits| ==> digits[k] in digits;
      "-" + digits
    else
      var digits := NatToDecimal(i);
      assert forall k :: 0 <= k < |digits| ==> digits[k] in digits;
      digits
  }

  /** Reads back a decimal: an optional minus sign, then one or more digits. */
  function ParseDecimal(s: string): Option<int>
  {
    if |s| >= 1 && s[0] == '-' then
      if |s| >= 2 && forall c :: c in s[1..] ==> IsDigit(c) then Some(-(DigitsValue(s[1..]) as int)) else None
    else if |s| >= 1 && forall c :: c in s ==> IsDigit(c) then Some(DigitsValue(s))
    else None
  }

  /** Every integer's rendering reads back as that integer. */
  lemma IntDecimalRoundTrip(i: int)
    ensures ParseDecimal(IntToDecimal(i)) == Some(i)
  {
    if i < 0 {
      NatDecimalRoundTrip(-i);
      assert ("-" + NatToDecimal(-i))[1..] == NatToDecimal(-i);
    } else {
      NatDecimalRoundTrip(i);
      assert NatToDecimal(i)[0] in NatToDecimal(i);
    }
  }
}
