/** The user registry kept in users.txt: one decimal user id per line.
    A message from a user appends the user's id once; the registry is then
    read back as a count or as the list of lines. */
module Users {

  /** The decimal digit character for 0 <= d < 10. */
  function DigitChar(d: int): char
    requires 0 <= d < 10
  {
    (d + '0' as int) as char
  }

  predicate IsDigit(c: char) {
    '0' <= c <= '9'
  }

  /** Decimal digits of a natural number, most significant first, no leading zeros. */
  function Digits(n: nat): string
    decreases n
  {
    if n < 10 then [DigitChar(n)] else Digits(n / 10) + [DigitChar(n % 10)]
  }

  /** Python's str(user_id) for an integer id: a minus sign for negative ids. */
  function RenderId(id: int): string {
    if id < 0 then "-" + Digits(-id) else Digits(id)
  }

  lemma {:induction false} DigitsShape(n: nat)
    ensures |Digits(n)| >= 1 && IsDigit(Digits(n)[0])
    ensures n >= 10 ==> |Digits(n)| >= 2
    decreases n
  {
    if n >= 10 {
      DigitsShape(n / 10);
    }
  }

  /** Different numbers have different decimal renderings. */
  lemma {:induction false} DigitsInjective(a: nat, b: nat)
    requires Digits(a) == Digits(b)
    ensures a == b
    decreases a
  {
    DigitsShape(a);
    DigitsShape(b);
    if a >= 10 && b >= 10 {
      var da, db := Digits(a), Digits(b);
      assert da == Digits(a / 10) + [DigitChar(a % 10)];
      assert db == Digits(b / 10) + [DigitChar(b % 10)];
      assert Digits(a / 10) == da[..|da| - 1];
      assert Digits(b / 10) == db[..|db| - 1];
      DigitsInjective(a / 10, b / 10);
      assert DigitChar(a % 10) == da[|da| - 1] == DigitChar(b % 10);
    }
  }

  /** str is injective on integers, so a line of users.txt names at most one id. */
  lemma RenderIdInjective(a: int, b: int)
    requires RenderId(a) == RenderId(b)
    ensures a == b
  {
    if a < 0 && b < 0 {
      assert Digits(-a) == RenderId(a)[1..];
      assert Digits(-b) == RenderId(b)[1..];
      DigitsInjective(-a, -b);
    } else if a >= 0 && b >= 0 {
      DigitsInjective(a, b);
    } else if a < 0 {
      DigitsShape(b);
    } else {
      DigitsShape(a);
    }
  }

  /** No line of the registry occurs twice. */
  predicate Distinct(lines: seq<string>) {
    forall i, j :: 0 <= i < j < |lines| ==> lines[i] != lines[j]
  }

  function LineSet(lines: seq<string>): set<string> {
    set l | l in lines
  }

  /** The lines that a set of tracked ids produces. */
  function Rendered(ids: set<int>): set<string> {
    set i | i in ids :: RenderId(i)
  }

  /** The registry holds exactly one line per tracked id, and nothing else. */
  predicate Records(lines: seq<string>, ids: set<int>) {
    Distinct(lines) && LineSet(lines) == Rendered(ids)
  }

  /** The line list after track_user(id): the id's line is appended only when
      it is not already present. */
  function Track(lines: seq<string>, id: int): seq<string> {
    if RenderId(id) in lines then lines else lines + [RenderId(id)]
  }

  lemma TrackContains(lines: seq<string>, id: int)
    ensures RenderId(id) in Track(lines, id)
    ensures RenderId(id) in lines ==> Track(lines, id) == lines
    ensures RenderId(id) !in lines ==> Track(lines, id) == lines + [RenderId(id)]
  {
  }

  /** Tracking the same id twice is the same as tracking it once. */
  lemma TrackIdempotent(lines: seq<string>, id: int)
    ensures Track(Track(lines, id), id) == Track(lines, id)
  {
  }

  /** The registry only grows, at its end. */
  lemma TrackExtends(lines: seq<string>, id: int)
    ensures |Track(lines, id)| <= |lines| + 1
    ensures Track(lines, id)[..|lines|] == lines
  {
  }

  lemma TrackPreservesDistinct(lines: seq<string>, id: int)
    requires Distinct(lines)
    ensures Distinct(Track(lines, id))
  {
  }

  /** A duplicate-free registry holds any of its lines exactly once. */
  lemma {:induction false} DistinctOccursOnce(lines: seq<string>, s: string)
    requires Distinct(lines)
    ensures multiset(lines)[s] == if s in lines then 1 else 0
  {
    if lines != [] {
      var init, last := lines[..|lines| - 1], lines[|lines| - 1];
      assert lines == init + [last];
      assert Distinct(init);
      DistinctOccursOnce(init, s);
      assert last !in init;
      assert multiset(lines) == multiset(init) + multiset{last};
    }
  }

  /** After track_user(id) on a duplicate-free registry, the id's line is there exactly once. */
  lemma TrackRecordsOnce(lines: seq<string>, id: int)
    requires Distinct(lines)
    ensures multiset(Track(lines, id))[RenderId(id)] == 1
  {
    TrackPreservesDistinct(lines, id);
    DistinctOccursOnce(Track(lines, id), RenderId(id));
  }

  lemma {:induction false} DistinctCardinality(lines: seq<string>)
    requires Distinct(lines)
    ensures |LineSet(lines)| == |lines|
  {
    if lines != [] {
      var init, last := lines[..|lines| - 1], lines[|lines| - 1];
      assert lines == init + [last];
      assert Distinct(init);
      DistinctCardinality(init);
      assert LineSet(lines) == LineSet(init) + {last};
      assert last !in LineSet(init);
    }
  }

  /** Removing one id removes exactly its own line from the rendered set. */
  lemma RenderedRemove(ids: set<int>, x: int)
    requires x in ids
    ensures Rendered(ids) == Rendered(ids - {x}) + {RenderId(x)}
    ensures RenderId(x) !in Rendered(ids - {x})
  {
    if RenderId(x) in Rendered(ids - {x}) {
      var y :| y in ids - {x} && RenderId(y) == RenderId(x);
      RenderIdInjective(x, y);
    }
  }

  lemma NonEmptyHasElement(ids: set<int>)
    requires ids != {}
    ensures exists x :: x in ids
  {
    if forall x :: x !in ids {
      assert false;
    }
  }

  lemma {:induction false} RenderedCardinality(ids: set<int>)
    ensures |Rendered(ids)| == |ids|
    decreases ids
  {
    if ids != {} {
      NonEmptyHasElement(ids);
      var x :| x in ids;
      RenderedRemove(ids, x);
      RenderedCardinality(ids - {x});
    }
  }

  /** A registry that records a set of ids has one line per id. */
  lemma RecordsCount(lines: seq<string>, ids: set<int>)
    requires Records(lines, ids)
    ensures |lines| == |ids|
  {
    DistinctCardinality(lines);
    RenderedCardinality(ids);
  }

  /** track_user keeps the registry recording exactly the ids seen so far. */
  lemma TrackPreservesRecords(lines: seq<string>, ids: set<int>, id: int)
    requires Records(lines, ids)
    ensures Records(Track(lines, id), ids + {id})
  {
    TrackPreservesDistinct(lines, id);
    if RenderId(id) in lines {
      assert RenderId(id) in Rendered(ids);
      var j :| j in ids && RenderId(j) == RenderId(id);
      RenderIdInjective(id, j);
      assert ids + {id} == ids;
    } else {
      assert LineSet(lines + [RenderId(id)]) == LineSet(lines) + {RenderId(id)};
      assert Rendered(ids + {id}) == Rendered(ids) + {RenderId(id)};
    }
  }
}
