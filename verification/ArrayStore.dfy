/** The table of arrays by descriptor, through which all array accesses go. */
module ArrayStore {
  import opened Base
  import opened Words
  import opened HiddenState
  import opened WorkingSet
  import opened ObliviousArray
  import opened Circuit

  class Store {
    const cacheMem: nat
    /** The rounded square root of a length, computed in floating point: any value will do. */
    const roundedSqrt: nat -> nat
    /** The random source that each new array is given. */
    const sources: (int, nat) -> Randomness

    var arrays: map<int, Array>
    var next: int
    ghost var repr: set<object>

    /** Every descriptor stands for an array of its own, and that array shows what plain says. */
    ghost predicate Valid(plain: map<int, PlainArray>)
      reads this, repr
    {
      Separated() && arrays.Keys == plain.Keys && forall d :: d in arrays ==> Shows(arrays[d], plain[d])
    }

    ghost predicate Separated()
      reads this
    {
      && this !in repr
      && (forall d :: d in arrays ==> 1 <= d < next && arrays[d].Footprint() <= repr)
      && (forall d, e :: d in arrays && e in arrays && d != e ==> arrays[d].Footprint() !! arrays[e].Footprint())
      && (forall d: int, n: nat :: n >= 1 ==> sources(d, n).Fair(n))
    }

    ghost predicate Shows(arr: Array, p: PlainArray)
      reads arr.Footprint()
    {
      arr.Valid() && arr.cacheMem == cacheMem && arr.elemSize == p.elemSize && arr.Contents() == p.elems
    }

    constructor (cacheMem: nat, roundedSqrt: nat -> nat, sources: (int, nat) -> Randomness)
      requires forall d: int, n: nat :: n >= 1 ==> sources(d, n).Fair(n)
      ensures Valid(map[]) && fresh(repr) && next == 1 && this.cacheMem == cacheMem
    {
      this.cacheMem, this.roundedSqrt, this.sources := cacheMem, roundedSqrt, sources;
      arrays, next := map[], 1;
      repr := {};
    }

    /** A new array with the given elements, under a descriptor that was not in use. */
    method NewArray(origin: Origin, ghost p: PlainArray, ghost plain: map<int, PlainArray>) returns (desc: int)
      requires Valid(plain) && Supported(origin.Len(), origin.elemSize, cacheMem) && next >= 1
      requires p == PlainArray(origin.elemSize, origin.Elems()) && p.Ok(cacheMem)
      modifies this
      ensures desc == old(next) && next == old(next) + 1
      ensures Valid(plain[desc := p]) && fresh(repr - old(repr))
    {
      var arr := MakeArray(next, origin, p);
      desc := Register(arr, p, plain);
    }

    method MakeArray(desc: int, origin: Origin, ghost p: PlainArray) returns (arr: Array)
      requires Supported(origin.Len(), origin.elemSize, cacheMem) && sources(desc, origin.Len()).Fair(origin.Len())
      requires p == PlainArray(origin.elemSize, origin.Elems()) && p.Ok(cacheMem)
      ensures fresh(arr.Footprint()) && Shows(arr, p)
      ensures arr.maxRetrievals == Min(roundedSqrt(arr.N) * LgFloor(arr.N), arr.N - 1)
    {
      var n := origin.Len();
      arr := new Array(origin, cacheMem, roundedSqrt(n) * LgFloor(n), sources(desc, n));
    }

    method Register(arr: Array, ghost p: PlainArray, ghost plain: map<int, PlainArray>) returns (desc: int)
      requires Valid(plain) && next >= 1 && Shows(arr, p) && arr.Footprint() !! repr + {this}
      modifies this
      ensures desc == old(next) && next == old(next) + 1
      ensures Valid(plain[desc := p]) && repr == old(repr) + arr.Footprint()
    {
      ghost var before, used := arrays, repr;
      desc := Add(arr);
      forall d | d in before
        ensures Shows(before[d], plain[d])
      {
        assert this !in before[d].Footprint() && old(Shows(before[d], plain[d]));
      }
      StaysSeparated(before, used, desc, arr);
      Others(desc, p, plain);
    }

    method Add(arr: Array) returns (desc: int)
      modifies this
      ensures desc == old(next) && next == old(next) + 1
      ensures arrays == old(arrays)[desc := arr] && repr == old(repr) + arr.Footprint()
    {
      desc := next;
      next := next + 1;
      arrays := arrays[desc := arr];
      repr := repr + arr.Footprint();
    }

    lemma StaysSeparated(before: map<int, Array>, used: set<object>, desc: int, arr: Array)
      requires this !in used && arr.Footprint() !! used + {this} && desc >= 1
      requires forall d :: d in before ==> 1 <= d < desc && before[d].Footprint() <= used
      requires forall d, e :: d in before && e in before && d != e ==> before[d].Footprint() !! before[e].Footprint()
      requires forall d: int, n: nat :: n >= 1 ==> sources(d, n).Fair(n)
      requires arrays == before[desc := arr] && repr == used + arr.Footprint() && next == desc + 1
      ensures Separated()
    {
    }

    /** Elements have the size and the arrays have the lengths that plain says. */
    lemma Sizes(desc: int, plain: map<int, PlainArray>)
      requires Valid(plain) && desc in arrays
      ensures desc in plain && plain[desc].Ok(cacheMem) && arrays[desc].N == |plain[desc].elems|
      ensures arrays[desc].elemSize == plain[desc].elemSize
      ensures arrays[desc].Footprint() <= repr && this !in repr
    {
    }

    method ReadAt(desc: int, i: nat, ghost plain: map<int, PlainArray>) returns (out: Bytes)
      requires Valid(plain) && desc in arrays && i < |plain[desc].elems|
      modifies arrays[desc].Footprint()
      ensures Valid(plain) && out == plain[desc].elems[i]
    {
      Sizes(desc, plain);
      out := ReadFrom(arrays[desc], plain[desc], i);
      forall e | e in arrays && e != desc
        ensures Shows(arrays[e], plain[e])
      {
        // the other arrays share nothing with this one
        assert arrays[e].Footprint() !! arrays[desc].Footprint() && old(Shows(arrays[e], plain[e]));
      }
    }

    method ReadFrom(arr: Array, ghost p: PlainArray, i: nat) returns (out: Bytes)
      requires Shows(arr, p) && i < |p.elems|
      modifies arr.Footprint()
      ensures Shows(arr, p) && out == p.elems[i]
    {
      out := arr.Read(i);
    }

    method WriteAt(desc: int, enable: bool, i: nat, off: nat, val: Bytes, ghost plain: map<int, PlainArray>)
      requires Valid(plain) && desc in arrays && i < |plain[desc].elems|
      requires enable ==> off + |val| <= |plain[desc].elems[i]|
      modifies arrays[desc].Footprint()
      ensures Valid(plain[desc := WriteElem(plain[desc], enable, Some(i), off, val)])
    {
      Sizes(desc, plain);
      ghost var p := WriteElem(plain[desc], enable, Some(i), off, val);
      WriteTo(arrays[desc], plain[desc], p, enable, i, off, val);
      forall e | e in arrays && e != desc
        ensures Shows(arrays[e], plain[e])
      {
        // the other arrays share nothing with this one
        assert arrays[e].Footprint() !! arrays[desc].Footprint() && old(Shows(arrays[e], plain[e]));
      }
      Others(desc, p, plain);
    }

    lemma Others(desc: int, p: PlainArray, plain: map<int, PlainArray>)
      requires Separated() && arrays.Keys == plain.Keys + {desc} && Shows(arrays[desc], p)
      requires forall e :: e in arrays && e != desc ==> Shows(arrays[e], plain[e])
      ensures Valid(plain[desc := p])
    {
    }

    method WriteTo(arr: Array, ghost p: PlainArray, ghost p': PlainArray, enable: bool, i: nat, off: nat, val: Bytes)
      requires Shows(arr, p) && i < |p.elems| && (enable ==> off + |val| <= |p.elems[i]|)
      requires p' == WriteElem(p, enable, Some(i), off, val)
      modifies arr.Footprint()
      ensures Shows(arr, p')
    {
      arr.Write(enable, i, off, val);
    }

    /** A read that is disabled or misses accesses element 0 all the same, and gives Nil. */
    method Read(desc: int, enable: bool, idx: Option<nat>, blank: Bytes, ghost plain: map<int, PlainArray>)
        returns (out: Bytes)
      requires Valid(plain) && desc in arrays && |blank| == plain[desc].elemSize
      modifies arrays[desc].Footprint()
      ensures Valid(plain) && |blank| >= 1 && out == ReadElem(plain[desc], enable, idx, blank)
    {
      Sizes(desc, plain);
      if !enable || idx == None || idx.value >= arrays[desc].N {
        out := ReadNil(desc, blank, plain);
      } else {
        out := ReadAt(desc, idx.value, plain);
      }
    }

    method ReadNil(desc: int, blank: Bytes, ghost plain: map<int, PlainArray>) returns (out: Bytes)
      requires Valid(plain) && desc in arrays && |blank| >= 1
      modifies arrays[desc].Footprint()
      ensures Valid(plain) && out == Nilled(blank)
    {
      Sizes(desc, plain);
      var _ := ReadAt(desc, 0, plain);
      out := NilBuffer(blank);
    }

    /** A write that is disabled or misses accesses element 0 all the same, and changes nothing. */
    method Write(desc: int, enable: bool, idx: Option<nat>, off: nat, val: Bytes, ghost plain: map<int, PlainArray>)
      requires Valid(plain) && desc in arrays
      requires Hits(plain[desc], enable, idx) ==> off + |val| <= |plain[desc].elems[idx.value]|
      modifies arrays[desc].Footprint()
      ensures Valid(plain[desc := WriteElem(plain[desc], enable, idx, off, val)])
    {
      Sizes(desc, plain);
      if idx == None || idx.value >= arrays[desc].N {
        WriteAt(desc, false, 0, off, val, plain);
      } else {
        WriteAt(desc, enable, idx.value, off, val, plain);
      }
    }
  }
}
