/** Model of the training-record types of border (src/core/record.rs):
    a string-keyed Record, and the recorders that accept records.
 */
module CoreRecord {

  datatype Option<T> = None | Some(value: T)

  datatype Result<T, E> = Ok(value: T) | Err(error: E)

  /** The bits of an f32; no arithmetic is done on them. */
  datatype F32 = F32(bits: bv32)

  /** An opaque point in local time (chrono's DateTime<Local>). */
  datatype Timestamp = Timestamp(nanos: int)

  datatype RecordValue =
    | Scalar(x: F32)
    | DateTime(t: Timestamp)
    | Array1(a: seq<F32>)

  /** The two LrrError variants that a Record raises. */
  datatype LrrError =
    | RecordKeyError(key: string)
    | RecordValueTypeError(expected: string)

  type Entries = map<string, RecordValue>

  /** The keys that occur in a slice of pairs. */
  ghost function KeysOf(s: seq<(string, RecordValue)>): set<string>
  {
    set i | 0 <= i < |s| :: s[i].0
  }

  /** Collecting pairs into a hash map: each pair is inserted in turn, so
      for a repeated key the later pair's value is kept. */
  function FromPairs(s: seq<(string, RecordValue)>): (m: Entries)
    ensures m.Keys == KeysOf(s)
  {
    if s == [] then map[]
    else
      var init := s[..|s| - 1];
      assert s == init + [s[|s| - 1]];
      assert KeysOf(s) == KeysOf(init) + {s[|s| - 1].0};
      FromPairs(init)[s[|s| - 1].0 := s[|s| - 1].1]
  }

  /** The value kept for a key is that of its last pair. */
  lemma {:induction false} FromPairsLastWins(s: seq<(string, RecordValue)>, i: nat)
    requires i < |s|
    requires forall j :: i < j < |s| ==> s[j].0 != s[i].0
    ensures s[i].0 in FromPairs(s) && FromPairs(s)[s[i].0] == s[i].1
  {
    if i < |s| - 1 {
      FromPairsLastWins(s[..|s| - 1], i);
    }
  }

  /** Chaining the entries of `b` after those of `a` and collecting them:
      every key of either, with `b`'s value on a shared key. */
  function Merged(a: Entries, b: Entries): (m: Entries)
    ensures m.Keys == a.Keys + b.Keys
    ensures forall k :: k in b ==> m[k] == b[k]
    ensures forall k :: k in a && k !in b ==> m[k] == a[k]
  {
    a + b
  }

  /** Collecting two slices one after the other is merging their records. */
  lemma {:induction false} FromPairsAppend(p: seq<(string, RecordValue)>, q: seq<(string, RecordValue)>)
    ensures FromPairs(p + q) == Merged(FromPairs(p), FromPairs(q))
  {
    if q != [] {
      var init := q[..|q| - 1];
      var last := q[|q| - 1];
      assert p + q == (p + init) + [last];
      assert (p + q)[..|p + q| - 1] == p + init;
      FromPairsAppend(p, init);
      var a, b := FromPairs(p), FromPairs(init);
      calc {
        FromPairs(p + q);
        FromPairs(p + init)[last.0 := last.1];
        (a + b)[last.0 := last.1];
        a + b[last.0 := last.1];
        Merged(FromPairs(p), FromPairs(q));
      }
    } else {
      assert p + q == p;
    }
  }

  /** A Record: string keys mapped to values, updated in place by Insert. */
  class Record {
    var entries: Entries

    /** Record::empty. */
    constructor Empty()
      ensures entries == map[] && Keys() == {}
    {
      entries := map[];
    }

    /** Record::from_slice: the pairs are collected in order. */
    constructor FromSlice(s: seq<(string, RecordValue)>)
      ensures entries == FromPairs(s)
      ensures Keys() == KeysOf(s)
    {
      var m: Entries := map[];
      var i := 0;
      while i < |s|
        invariant 0 <= i <= |s|
        invariant m == FromPairs(s[..i])
      {
        assert s[..i + 1][..i] == s[..i];
        m := m[s[i].0 := s[i].1];
        i := i + 1;
      }
      assert s[..i] == s;
      entries := m;
    }

    /** Record::keys. */
    function Keys(): (r: set<string>)
      reads this
      ensures forall k :: k in r <==> Get(k).Some?
    {
      entries.Keys
    }

    /** Record::get. */
    function Get(k: string): (r: Option<RecordValue>)
      reads this
      ensures r.Some? <==> k in entries
      ensures r.Some? ==> r.value == entries[k]
    {
      if k in entries then Some(entries[k]) else None
    }

    /** Record::insert: `k` now maps to `v`, replacing any earlier value;
        every other key keeps its value. */
    method Insert(k: string, v: RecordValue)
      modifies this
      ensures Get(k) == Some(v)
      ensures Keys() == old(Keys()) + {k}
      ensures forall k' :: k' != k ==> Get(k') == old(Get(k'))
    {
      entries := entries[k := v];
    }

    /** Record::merge: a new record holding both; `other` wins on a shared key. */
    method Merge(other: Record) returns (r: Record)
      ensures fresh(r)
      ensures r.entries == Merged(entries, other.entries)
      ensures r.Keys() == Keys() + other.Keys()
    {
      r := new Record.Empty();
      r.entries := Merged(entries, other.entries);
    }

    /** Record::get_scalar: the scalar under `k`, a key error when `k` is
        absent, and a type error when its value is not a scalar. */
    function GetScalar(k: string): (r: Result<F32, LrrError>)
      reads this
      ensures Get(k).None? ==> r == Err(RecordKeyError(k))
      ensures Get(k).Some? && Get(k).value.Scalar? ==> r == Ok(Get(k).value.x)
      ensures Get(k).Some? && !Get(k).value.Scalar? ==> r == Err(RecordValueTypeError("Scalar"))
    {
      if k in entries then
        match entries[k]
        case Scalar(x) => Ok(x)
        case _ => Err(RecordValueTypeError("Scalar"))
      else
        Err(RecordKeyError(k))
    }
  }

  /** A recorder that discards every record. */
  class NullRecorder {
    constructor ()
    {
    }

    /** NullRecorder::write: nothing changes, not even the record. */
    method Write(record: Record)
      ensures unchanged(this, record)
    {
    }
  }

  /** A recorder that keeps every record it is given, in order.  Writing
      moves the record in, so the recorder holds the record's contents as
      they were at the write. */
  class BufferedRecorder {
    var records: seq<Entries>

    /** BufferedRecorder::new. */
    constructor ()
      ensures Iter() == []
    {
      records := [];
    }

    /** BufferedRecorder::iter: the records in the order they were written. */
    function Iter(): seq<Entries>
      reads this
    {
      records
    }

    /** BufferedRecorder::write: the record goes at the end. */
    method Write(record: Record)
      modifies this
      ensures Iter() == old(Iter()) + [record.entries]
      ensures |Iter()| == |old(Iter())| + 1
    {
      records := records + [record.entries];
    }
  }

  /** Records written one after another come back from Iter in write order,
      and a later Insert into a written record does not change them. */
  method WriteOrder(a: Record, b: Record, k: string, v: RecordValue) returns (rec: BufferedRecorder)
    modifies a
    ensures fresh(rec) && rec.Iter() == [old(a.entries), old(b.entries)]
  {
    rec := new BufferedRecorder();
    rec.Write(a);
    rec.Write(b);
    a.Insert(k, v);
  }
}
