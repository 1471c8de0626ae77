/**
 * FF2J.Statistics: start and end line numbers, start and end times in milliseconds, and
 * a counter of handled entities per entity class.
 */
module Stats {
  import opened JavaTypes

  /** An arbitrary but fixed key of a non-empty counter map. */
  ghost function Pick(m: map<ClassId, int>): (k: ClassId)
    requires m != map[]
    ensures k in m
  {
    var k :| k in m; k
  }

  /** The sum of all counters. */
  ghost function Total(m: map<ClassId, int>): (n: int)
    decreases |m|
  {
    if m == map[] then 0
    else
      var k := Pick(m);
      assert |m - {k}| < |m| by { assert (m - {k}).Keys == m.Keys - {k}; }
      m[k] + Total(m - {k})
  }

  /** Any counter can be taken out of the sum first. */
  lemma {:induction false} TotalRemove(m: map<ClassId, int>, k: ClassId)
    requires k in m
    ensures Total(m) == m[k] + Total(m - {k})
    decreases |m|
  {
    var j := Pick(m);
    if j != k {
      assert (m - {j}).Keys == m.Keys - {j};
      assert (m - {k}).Keys == m.Keys - {k};
      TotalRemove(m - {j}, k);
      TotalRemove(m - {k}, j);
      assert m - {j} - {k} == m - {k} - {j};
    }
  }

  /** The counters after one more entity of class c. */
  function Incremented(m: map<ClassId, int>, c: ClassId): (r: map<ClassId, int>)
    ensures r.Keys == m.Keys + {c}
    ensures forall d :: d in m && d != c ==> r[d] == m[d]
  {
    m[c := if c in m then m[c] + 1 else 1]
  }

  /** incrementCounter adds exactly one to the sum, creating an absent counter at 1 and leaving other classes alone. */
  lemma IncrementedSpec(m: map<ClassId, int>, c: ClassId)
    ensures Incremented(m, c).Keys == m.Keys + {c}
    ensures c !in m ==> Incremented(m, c)[c] == 1
    ensures c in m ==> Incremented(m, c)[c] == m[c] + 1
    ensures forall d :: d in m && d != c ==> Incremented(m, c)[d] == m[d]
    ensures Total(Incremented(m, c)) == Total(m) + 1
  {
    var r := Incremented(m, c);
    TotalRemove(r, c);
    assert r - {c} == m - {c};
    if c in m {
      TotalRemove(m, c);
    } else {
      assert m - {c} == m;
    }
  }

  /** Java's long division, which truncates toward zero. */
  function JavaDiv(a: int, b: int): (q: int)
    requires b > 0
    ensures a >= 0 ==> 0 <= a - q * b < b
    ensures a < 0 ==> -b < a - q * b <= 0
  {
    if a >= 0 then a / b else -((-a) / b)
  }

  class Statistics {
    var startLineNumber: int
    var endLineNumber: int
    var startTime: int
    var endTime: int
    var entitiesCounter: map<ClassId, int>

    constructor ()
      ensures startLineNumber == 0 && endLineNumber == 0 && startTime == 0 && endTime == 0
      ensures entitiesCounter == map[]
    {
      startLineNumber, endLineNumber, startTime, endTime := 0, 0, 0, 0;
      entitiesCounter := map[];
    }

    /** getElapsedTime(): milliseconds between start and end. */
    function ElapsedTime(): (t: int)
      reads this
      ensures startTime + t == endTime
      ensures t >= 0 <==> startTime <= endTime
    {
      endTime - startTime
    }

    /**
     * The fields of getElapsedTimeString(): hours, minutes, seconds and milliseconds that
     * add back up to the elapsed time, each below its unit when the time is not negative.
     */
    method ElapsedTimeParts() returns (hours: int, minutes: int, seconds: int, millis: int)
      ensures hours * 3600000 + minutes * 60000 + seconds * 1000 + millis == ElapsedTime()
      ensures ElapsedTime() >= 0 ==> hours >= 0 && 0 <= minutes < 60 && 0 <= seconds < 60 && 0 <= millis < 1000
      ensures ElapsedTime() < 0 ==> hours <= 0 && -60 < minutes <= 0 && -60 < seconds <= 0 && -1000 < millis <= 0
    {
      var timeInMillis := ElapsedTime();
      hours := JavaDiv(timeInMillis, 3600000);
      timeInMillis := timeInMillis - hours * 3600000;
      minutes := JavaDiv(timeInMillis, 60000);
      timeInMillis := timeInMillis - minutes * 60000;
      seconds := JavaDiv(timeInMillis, 1000);
      timeInMillis := timeInMillis - seconds * 1000;
      millis := timeInMillis;
    }

    /** incrementCounter(entityClass). */
    method IncrementCounter(c: ClassId)
      modifies this`entitiesCounter
      ensures entitiesCounter == Incremented(old(entitiesCounter), c)
      ensures startLineNumber == old(startLineNumber) && endLineNumber == old(endLineNumber)
      ensures startTime == old(startTime) && endTime == old(endTime)
    {
      var counter: int;
      if c !in entitiesCounter {
        counter := 1;
      } else {
        counter := entitiesCounter[c] + 1;
      }
      entitiesCounter := entitiesCounter[c := counter];
    }
  }
}
