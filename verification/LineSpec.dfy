/** Finding the end of a request line in what has arrived so far. */
module LineSpec {
  datatype Status = Ok | Bad | Open

  /** The status of the first line of c and how much of c is consumed: a line ends in CR LF; a bare CR or LF is an
      error, and is not consumed; a CR at the very end waits for more. */
  function Scan(c: seq<char>): (r: (Status, nat))
    ensures r.1 <= |c|
  {
    if c == [] then (Open, 0)
    else if c[0] == '\r' then
      if |c| == 1 then (Open, 0) else if c[1] == '\n' then (Ok, 2) else (Bad, 0)
    else if c[0] == '\n' then (Bad, 0)
    else (Scan(c[1..]).0, Scan(c[1..]).1 + 1)
  }

  /** What the statuses mean: there is no CR or LF in what was consumed but for the CR LF at its end. */
  lemma {:induction false} ScanMeans(c: seq<char>)
    ensures var (s, k) := Scan(c);
            (s == Ok ==> k >= 2 && c[k - 2] == '\r' && c[k - 1] == '\n')
            && (s == Bad ==> k < |c| && (c[k] == '\n' || (c[k] == '\r' && k + 1 < |c| && c[k + 1] != '\n')))
            && (s == Open ==> k == |c| || (k == |c| - 1 && c[k] == '\r'))
            && (forall i :: 0 <= i < (if s == Ok then k - 2 else k) ==> c[i] != '\r' && c[i] != '\n')
  {
    if c != [] && c[0] != '\r' && c[0] != '\n' {
      ScanMeans(c[1..]);
    }
  }

  /** A decided line stays decided, the same way, whatever follows. */
  lemma {:induction false} ScanDecided(a: seq<char>, b: seq<char>)
    requires Scan(a).0 != Open
    ensures Scan(a + b) == Scan(a)
  {
    if a[0] != '\r' && a[0] != '\n' {
      ScanDecided(a[1..], b);
      assert (a + b)[1..] == a[1..] + b;
    }
  }

  /** An open scan can be resumed where it stopped. */
  lemma {:induction false} ScanResumes(a: seq<char>, b: seq<char>)
    requires Scan(a).0 == Open
    ensures Scan(a + b) == (Scan(a[Scan(a).1..] + b).0, Scan(a).1 + Scan(a[Scan(a).1..] + b).1)
  {
    if a == [] {
      assert a + b == b && a[0..] + b == b;
    } else if a[0] == '\r' {
      assert a[0..] + b == a + b;
    } else {
      var k := Scan(a[1..]).1;
      ScanResumes(a[1..], b);
      assert (a + b)[1..] == a[1..] + b;
      assert a[1..][k..] == a[k + 1..];
    }
  }

  function Concat(chunks: seq<seq<char>>): seq<char> {
    if chunks == [] then [] else chunks[0] + Concat(chunks[1..])
  }

  /** Chunks arriving one by one behind the bytes left over, the scanner called after each until it decides. */
  function Feed(left: seq<char>, chunks: seq<seq<char>>): (r: (Status, nat))
    decreases chunks
  {
    if chunks == [] then (Open, 0)
    else
      var c := left + chunks[0];
      var (s, k) := Scan(c);
      if s != Open then (s, k)
      else
        var (s', k') := Feed(c[k..], chunks[1..]);
        (s', k + k')
  }

  /** However the input is split, the status and the offset are those of one scan of it all. */
  lemma {:induction false} SplitIndependent(left: seq<char>, chunks: seq<seq<char>>)
    requires Scan(left) == (Open, 0)
    ensures Feed(left, chunks) == Scan(left + Concat(chunks))
    decreases chunks
  {
    if chunks == [] {
      assert left + [] == left;
    } else {
      var c, rest := left + chunks[0], Concat(chunks[1..]);
      assert left + Concat(chunks) == c + rest;
      if Scan(c).0 != Open {
        ScanDecided(c, rest);
      } else {
        ScanMeans(c);
        ScanResumes(c, rest);
        SplitIndependent(c[Scan(c).1..], chunks[1..]);
      }
    }
  }
}
