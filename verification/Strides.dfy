/**
 Tensors of a `torch.save` archive read in place (convert/ollaya_convert/families/weightless_ext.py and
 convert/ollaya_convert/arch.py): the stride check and the byte range of a tensor.
 */
module Strides {
  import opened Wrappers
  import opened Arithmetic
  import opened ByteStrings
  import opened Shapes

  /** The strides of a row-major tensor: each is the number of elements of the dimensions after it. */
  function Expected(size: seq<nat>): (r: seq<nat>)
    ensures |r| == |size|
  {
    if size == [] then [] else [Size(size[1..])] + Expected(size[1..])
  }

  lemma {:induction false} ExpectedAt(size: seq<nat>, k: nat)
    requires k < |size|
    ensures Expected(size)[k] == Size(size[k + 1..])
  {
    if k > 0 {
      ExpectedAt(size[1..], k - 1);
      assert size[1..][k..] == size[k + 1..];
    }
  }

  lemma SizeOfSuffix(size: seq<nat>, k: nat)
    requires k < |size|
    ensures Size(size[k..]) == size[k] * Size(size[k + 1..])
  {
    assert size[k..][1..] == size[k + 1..];
  }

  lemma ProductsExpected(size: seq<nat>, products: seq<nat>)
    requires |products| == |size| && forall k :: 0 <= k < |size| ==> products[k] == Size(size[|size| - k..])
    ensures Reversed(products) == Expected(size)
  {
    hide Size;
    forall j | 0 <= j < |size| ensures Reversed(products)[j] == Expected(size)[j] {
      ExpectedAt(size, j);
      assert products[|size| - 1 - j] == Size(size[|size| - (|size| - 1 - j)..]);
    }
  }

  function Reversed<T>(s: seq<T>): (r: seq<T>)
    ensures |r| == |s| && forall i :: 0 <= i < |s| ==> r[i] == s[|s| - 1 - i]
  {
    if s == [] then [] else Reversed(s[1..]) + [s[0]]
  }

  /** `_contiguous`. */
  method Contiguous(size: seq<nat>, stride: seq<nat>) returns (r: bool)
    ensures r <==> stride == Expected(size)
  {
    var products: seq<nat>, acc: nat := [], 1;
    var dims := Reversed(size);
    for i := 0 to |dims|
      invariant acc == Size(size[|size| - i..]) && |products| == i
      invariant forall k :: 0 <= k < i ==> products[k] == Size(size[|size| - k..])
    {
      SizeOfSuffix(size, |size| - i - 1);
      NonNegative(acc, dims[i]);
      hide Size;
      products := products + [acc];
      acc := dims[i] * acc;
    }
    ProductsExpected(size, products);
    return Reversed(products) == stride;
  }

  // ---------------------------------------------------------------- multi-indices

  predicate Valid(size: seq<nat>, ix: seq<nat>) {
    |ix| == |size| && forall k :: 0 <= k < |size| ==> ix[k] < size[k]
  }

  /** The element a multi-index addresses, counted from the tensor's first. */
  function Offset(ix: seq<nat>, stride: seq<nat>): (o: nat)
    requires |ix| == |stride|
  {
    if ix == [] then 0
    else
      NonNegative(ix[0], stride[0]);
      ix[0] * stride[0] + Offset(ix[1..], stride[1..])
  }

  /** The multi-index at place `o` of the row-major order. */
  function Unrank(size: seq<nat>, o: nat): (ix: seq<nat>)
    requires o < Size(size)
    ensures |ix| == |size|
  {
    if size == [] then []
    else
      var n := Size(size[1..]);
      Split2(size[0], n, o);
      [o / n] + Unrank(size[1..], o % n)
  }

  /** Lexicographic order: the order of a nested loop over the dimensions. */
  predicate Before(a: seq<nat>, b: seq<nat>)
    requires |a| == |b|
  {
    a != [] && (a[0] < b[0] || (a[0] == b[0] && Before(a[1..], b[1..])))
  }

  lemma {:induction false} OffsetInRange(size: seq<nat>, ix: seq<nat>)
    requires Valid(size, ix)
    ensures Offset(ix, Expected(size)) < Size(size)
  {
    if size != [] {
      OffsetInRange(size[1..], ix[1..]);
      assert Expected(size)[1..] == Expected(size[1..]);
      Index2(size[0], Size(size[1..]), ix[0], Offset(ix[1..], Expected(size[1..])));
    }
  }

  /** Every place is that of a multi-index … */
  lemma {:induction false} UnrankOffset(size: seq<nat>, o: nat)
    requires o < Size(size)
    ensures Valid(size, Unrank(size, o)) && Offset(Unrank(size, o), Expected(size)) == o
  {
    if size != [] {
      var n := Size(size[1..]);
      Split2(size[0], n, o);
      UnrankOffset(size[1..], o % n);
      var ix := Unrank(size, o);
      assert ix[1..] == Unrank(size[1..], o % n) && Expected(size)[1..] == Expected(size[1..]);
    }
  }

  /** … of one only, and the places are in the order of the multi-indices. */
  lemma {:induction false} OffsetUnrank(size: seq<nat>, ix: seq<nat>)
    requires Valid(size, ix)
    ensures Offset(ix, Expected(size)) < Size(size) && Unrank(size, Offset(ix, Expected(size))) == ix
  {
    OffsetInRange(size, ix);
    if size != [] {
      var n, rest := Size(size[1..]), Offset(ix[1..], Expected(size[1..]));
      OffsetUnrank(size[1..], ix[1..]);
      assert Expected(size)[1..] == Expected(size[1..]);
      Index2(size[0], n, ix[0], rest);
      assert ix == [ix[0]] + ix[1..];
    }
  }

  lemma {:induction false} OffsetOrdered(size: seq<nat>, a: seq<nat>, b: seq<nat>)
    requires Valid(size, a) && Valid(size, b)
    ensures Before(a, b) <==> Offset(a, Expected(size)) < Offset(b, Expected(size))
  {
    if size != [] {
      var n := Size(size[1..]);
      var x, y := Offset(a[1..], Expected(size[1..])), Offset(b[1..], Expected(size[1..]));
      OffsetOrdered(size[1..], a[1..], b[1..]);
      OffsetInRange(size[1..], a[1..]);
      OffsetInRange(size[1..], b[1..]);
      assert Expected(size)[1..] == Expected(size[1..]);
      Compare(n, a[0], x, b[0], y);
    }
  }

  lemma Compare(n: nat, a: nat, x: nat, b: nat, y: nat)
    requires x < n && y < n
    ensures a < b ==> a * n + x < b * n + y
    ensures a > b ==> a * n + x > b * n + y
  {
    if a < b {
      MulMono(a + 1, b, n);
      Distribute(a, 1, n);
    } else if a > b {
      MulMono(b + 1, a, n);
      Distribute(b, 1, n);
    }
  }

  // ---------------------------------------------------------------- exactly when the check should pass

  /** The strides address the elements in row-major order, without gaps. */
  ghost predicate RowMajor(size: seq<nat>, stride: seq<nat>) {
    |stride| == |size| && forall ix :: Valid(size, ix) ==> Offset(ix, stride) == Offset(ix, Expected(size))
  }

  /** The strides are as expected wherever a dimension has more than one element. */
  predicate ExpectedWhereItMatters(size: seq<nat>, stride: seq<nat>) {
    |stride| == |size| && forall k :: 0 <= k < |size| && size[k] > 1 ==> stride[k] == Expected(size)[k]
  }

  /** The zero multi-index, with one at dimension `k`. */
  function Unit(n: nat, k: nat): (ix: seq<nat>)
    ensures |ix| == n
  {
    seq(n, i => if i == k then 1 else 0)
  }

  lemma {:induction false} UnitOffset(n: nat, k: nat, stride: seq<nat>)
    requires |stride| == n
    ensures Offset(Unit(n, k), stride) == if k < n then stride[k] else 0
  {
    if n > 0 {
      if k == 0 {
        assert Unit(n, 0)[1..] == Unit(n - 1, n);
        UnitOffset(n - 1, n, stride[1..]);
      } else {
        assert Unit(n, k)[1..] == Unit(n - 1, k - 1);
        UnitOffset(n - 1, k - 1, stride[1..]);
      }
    }
  }

  lemma {:induction false} SameOffset(size: seq<nat>, ix: seq<nat>, a: seq<nat>, b: seq<nat>)
    requires Valid(size, ix) && |a| == |b| == |size|
    requires forall k :: 0 <= k < |size| && size[k] > 1 ==> a[k] == b[k]
    ensures Offset(ix, a) == Offset(ix, b)
  {
    if size != [] {
      SameOffset(size[1..], ix[1..], a[1..], b[1..]);
    }
  }

  predicate NoEmptyDimension(size: seq<nat>) {
    forall k :: 0 <= k < |size| ==> size[k] > 0
  }

  /** Row-major: of tensors without elements any, of others exactly those whose strides are as expected where it matters. */
  lemma RowMajorIff(size: seq<nat>, stride: seq<nat>)
    ensures RowMajor(size, stride) <==>
            |stride| == |size| && (NoEmptyDimension(size) ==> ExpectedWhereItMatters(size, stride))
  {
    if RowMajor(size, stride) && NoEmptyDimension(size) {
      forall k | 0 <= k < |size| && size[k] > 1 ensures stride[k] == Expected(size)[k] {
        assert Valid(size, Unit(|size|, k));
        UnitOffset(|size|, k, stride);
        UnitOffset(|size|, k, Expected(size));
      }
    }
    if !NoEmptyDimension(size) {
      NothingValid(size);
    }
    if ExpectedWhereItMatters(size, stride) {
      forall ix | Valid(size, ix) ensures Offset(ix, stride) == Offset(ix, Expected(size)) {
        SameOffset(size, ix, stride, Expected(size));
      }
    }
  }

  lemma NothingValid(size: seq<nat>)
    requires !NoEmptyDimension(size)
    ensures forall ix :: !Valid(size, ix)
  {
    var k :| 0 <= k < |size| && size[k] == 0;
    forall ix ensures !Valid(size, ix) {
      assert |ix| != |size| || !(ix[k] < size[k]);
    }
  }

  /**
   The check is stricter. A row-major tensor is refused exactly when it has no elements and any stride differs, or has elements
   and the stride of a dimension of one element differs.
   */
  lemma RefusedIff(size: seq<nat>, stride: seq<nat>)
    ensures RowMajor(size, stride) && stride != Expected(size) <==>
            |stride| == |size| &&
            (if NoEmptyDimension(size) then
               ExpectedWhereItMatters(size, stride) && exists k :: 0 <= k < |size| && size[k] == 1 && stride[k] != Expected(size)[k]
             else exists k :: 0 <= k < |size| && stride[k] != Expected(size)[k])
  {
    RowMajorIff(size, stride);
    if |stride| == |size| && stride != Expected(size) {
      var k :| 0 <= k < |size| && stride[k] != Expected(size)[k];
      assert NoEmptyDimension(size) ==> size[k] > 0;
    }
  }

  /** One of each kind: a dimension of one element with another stride, and an empty tensor with the strides of a full one. */
  lemma StricterThanRowMajor()
    ensures var size, stride := [1, 3], [7, 1]; RowMajor(size, stride) && stride != Expected(size)
    ensures var size, stride := [2, 0], [1, 1]; RowMajor(size, stride) && stride != Expected(size)
  {
    ExpectedOfTwo(1, 3);
    RowMajorIff([1, 3], [7, 1]);
    ExpectedOfTwo(2, 0);
    assert [2, 0][1] == 0;
    RowMajorIff([2, 0], [1, 1]);
  }

  lemma ExpectedOfTwo(a: nat, b: nat)
    ensures Expected([a, b]) == [b, 1]
  {
    assert [a, b][1..] == [b] && [b][1..] == [];
    assert Size([]) == 1 && Size([b]) == b;
    assert Expected([a, b]) == [b] + Expected([b]) && Expected([b]) == [1] + Expected([]);
  }

  // ---------------------------------------------------------------- the bytes of a tensor

  datatype Tensor = Tensor(key: string, itemSize: nat, offset: nat, size: seq<nat>, stride: seq<nat>)

  /** What the index says of a tensor: its shape, and its byte range in the file. */
  datatype Located = Located(size: seq<nat>, from: nat, length: nat)

  function LocatedAt(start: nat, t: Tensor): Located {
    NonNegative(t.offset, t.itemSize);
    NonNegative(Size(t.size), t.itemSize);
    Located(t.size, start + t.offset * t.itemSize, Size(t.size) * t.itemSize)
  }

  /** The bytes of the element at a multi-index: of a storage that starts at `start` in the file. */
  function ElementBytes(file: seq<Byte>, start: nat, t: Tensor, ix: seq<nat>): seq<Byte>
    requires |ix| == |t.stride|
    requires start + (t.offset + Offset(ix, t.stride) + 1) * t.itemSize <= |file|
  {
    var e := t.offset + Offset(ix, t.stride);
    NonNegative(e, t.itemSize);
    file[start + e * t.itemSize..start + (e + 1) * t.itemSize]
  }

  /** Element `r` of a run of bytes. */
  function ElementAt(bytes: seq<Byte>, item: nat, r: nat): seq<Byte>
    requires (r + 1) * item <= |bytes|
  {
    bytes[r * item..(r + 1) * item]
  }

  /**
   The bytes read for a tensor whose strides are as expected hold exactly its elements, in row-major order: element `r` of the
   bytes is the element at the multi-index of place `r`.
   */
  lemma BytesAreTheTensor(file: seq<Byte>, start: nat, t: Tensor, ix: seq<nat>)
    requires t.stride == Expected(t.size) && Valid(t.size, ix)
    requires start + (t.offset + Size(t.size)) * t.itemSize <= |file|
    ensures
      var (from, length) := (LocatedAt(start, t).from, LocatedAt(start, t).length);
      var r := Offset(ix, t.stride);
      LocatedAt(start, t).size == t.size &&
      r < Size(t.size) && 0 <= from <= from + length <= |file| && (r + 1) * t.itemSize <= length &&
      start + (t.offset + r + 1) * t.itemSize <= |file| &&
      ElementAt(file[from..from + length], t.itemSize, r) == ElementBytes(file, start, t, ix) &&
      Unrank(t.size, r) == ix
  {
    var r, n := Offset(ix, t.stride), Size(t.size);
    OffsetUnrank(t.size, ix);
    hide Offset, Size, Unrank, Expected, Valid;
    ItemPlaces(t.offset, r, n, t.itemSize);
    SliceOfSlice(file, start + t.offset * t.itemSize, n * t.itemSize, r * t.itemSize, (r + 1) * t.itemSize);
  }

  lemma ItemPlaces(offset: nat, r: nat, n: nat, item: nat)
    requires r < n
    ensures 0 <= offset * item && 0 <= r * item <= (r + 1) * item <= n * item && offset * item + n * item == (offset + n) * item
    ensures (offset + r) * item == offset * item + r * item && (offset + r + 1) * item == offset * item + (r + 1) * item
    ensures (offset + r + 1) * item <= (offset + n) * item
  {
    MulMono(r, r + 1, item);
    MulMono(r + 1, n, item);
    MulMono(offset + r + 1, offset + n, item);
    Distribute(offset, n, item);
    Distribute(offset, r, item);
    Distribute(offset, r + 1, item);
    NonNegative(offset, item);
    NonNegative(r, item);
  }

  lemma SliceOfSlice(file: seq<Byte>, from: nat, length: nat, a: nat, b: nat)
    requires a <= b <= length && from + length <= |file|
    ensures file[from..from + length][a..b] == file[from + a..from + b]
  {
    var part := file[from..from + length];
    assert forall k :: 0 <= k < b - a ==> part[a..b][k] == file[from + a..from + b][k];
  }

  // ---------------------------------------------------------------- the index of an archive

  /** A member of the archive: its name below the data directory, where its local header starts, that header, and whether it is stored. */
  datatype Entry = Entry(key: string, headerOffset: nat, header: seq<Byte>, stored: bool)

  datatype IndexError = Compressed(key: string) | NoStorage(key: string)

  /** Little-endian, two bytes. */
  function Short(a: Byte, b: Byte): nat { a + 256 * b }

  /** Where an entry's data starts: after its 30-byte local header, its name and its extra field. */
  function DataStart(e: Entry): nat
    requires |e.header| == 30
  {
    e.headerOffset + 30 + Short(e.header[26], e.header[27]) + Short(e.header[28], e.header[29])
  }

  /** A local header is followed by the name and the extra field whose lengths it gives at 26 and 28, and those by the data. */
  lemma DataFollows(e: Entry, before: seq<Byte>, name: seq<Byte>, extra: seq<Byte>, data: seq<Byte>, after: seq<Byte>)
    requires |e.header| == 30 && e.headerOffset == |before|
    requires |name| == e.header[26] as int + 256 * (e.header[27] as int) && |extra| == e.header[28] as int + 256 * (e.header[29] as int)
    ensures
      var file := before + e.header + name + extra + data + after;
      DataStart(e) + |data| <= |file| && file[DataStart(e)..DataStart(e) + |data|] == data
  {
    var lead := before + e.header + name + extra;
    assert |lead| == DataStart(e);
    assert (lead + data + after)[|lead|..|lead| + |data|] == data;
  }

  predicate AllHeaders(entries: seq<Entry>) {
    forall i :: 0 <= i < |entries| ==> |entries[i].header| == 30
  }

  /** No later entry before `n` has entry `i`'s key. */
  predicate LastOf(entries: seq<Entry>, i: nat, n: nat)
    requires i < n <= |entries|
  {
    forall j :: i < j < n ==> entries[j].key != entries[i].key
  }

  method Starts(entries: seq<Entry>) returns (r: Result<map<string, nat>, IndexError>)
    requires AllHeaders(entries)
    ensures r.Success? ==> forall i :: 0 <= i < |entries| ==> entries[i].stored && entries[i].key in r.value
    ensures r.Success? ==> forall key <- r.value ::
              exists i :: 0 <= i < |entries| && entries[i].key == key && r.value[key] == DataStart(entries[i])
    ensures r.Success? ==> forall i ::
              0 <= i < |entries| && LastOf(entries, i, |entries|) ==> r.value[entries[i].key] == DataStart(entries[i])
    ensures r.Failure? <==> exists i :: 0 <= i < |entries| && !entries[i].stored
    ensures r.Failure? ==> exists i :: 0 <= i < |entries| && !entries[i].stored && r.error == Compressed(entries[i].key) &&
                             forall j :: 0 <= j < i ==> entries[j].stored
  {
    var starts: map<string, nat> := map[];
    for i := 0 to |entries|
      invariant forall k :: 0 <= k < i ==> entries[k].stored && entries[k].key in starts
      invariant forall k :: 0 <= k < i && LastOf(entries, k, i) ==> starts[entries[k].key] == DataStart(entries[k])
      invariant forall key <- starts :: exists k :: 0 <= k < i && entries[k].key == key && starts[key] == DataStart(entries[k])
    {
      if !entries[i].stored {
        return Failure(Compressed(entries[i].key));
      }
      starts := starts[entries[i].key := DataStart(entries[i])];
    }
    return Success(starts);
  }

  /** The tensors by name; a dictionary, so no name twice. */
  type Tensors = seq<(string, Tensor)>

  predicate DistinctNames(tensors: Tensors) {
    forall i, j :: 0 <= i < j < |tensors| ==> tensors[i].0 != tensors[j].0
  }

  /** A contiguous tensor whose storage the archive does not have. */
  predicate Missing(starts: map<string, nat>, t: Tensor) {
    t.stride == Expected(t.size) && t.key !in starts
  }

  /** The index has exactly the contiguous tensors, each at its byte range; no index without their storages. */
  method ReadIndex(starts: map<string, nat>, tensors: Tensors) returns (r: Result<map<string, Located>, IndexError>)
    requires DistinctNames(tensors)
    ensures r.Failure? <==> exists i :: 0 <= i < |tensors| && Missing(starts, tensors[i].1)
    ensures r.Success? ==> forall i :: 0 <= i < |tensors| ==>
              var (name, t) := tensors[i];
              (name in r.value <==> t.stride == Expected(t.size)) &&
              (name in r.value ==> t.key in starts && r.value[name] == LocatedAt(starts[t.key], t))
    ensures r.Success? ==> forall name <- r.value :: exists i :: 0 <= i < |tensors| && tensors[i].0 == name
  {
    var index: map<string, Located> := map[];
    for i := 0 to |tensors|
      invariant forall k :: 0 <= k < i ==> !Missing(starts, tensors[k].1)
      invariant forall k :: 0 <= k < i ==>
                  var (name, t) := tensors[k];
                  (name in index <==> t.stride == Expected(t.size)) &&
                  (name in index ==> t.key in starts && index[name] == LocatedAt(starts[t.key], t))
      invariant forall name <- index :: exists k :: 0 <= k < i && tensors[k].0 == name
    {
      var (name, t) := tensors[i];
      var contiguous := Contiguous(t.size, t.stride);
      if contiguous {
        if t.key !in starts {
          assert Missing(starts, tensors[i].1);
          return Failure(NoStorage(t.key));
        }
        index := index[name := LocatedAt(starts[t.key], t)];
      }
    }
    return Success(index);
  }
}
