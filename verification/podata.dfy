/** The partitioned dataset (`POdata`): outcome, treatment and covariate
    arrays, validated once and split into treated (`Z == 1`) and control
    (`Z == 0`) rows at construction. */
module PoData {
  import opened Masks

  /** One row of the covariate matrix. */
  type Row = seq<real>

  /** A Python argument that has a length: a numpy ndarray, or any other
      sequence such as a list or a tuple. */
  datatype Column<T> = NdArray(items: seq<T>) | OtherSequence(items: seq<T>)

  /** The attributes a successfully validated `POdata` carries. */
  datatype POData = POData(
    Y: seq<real>, Z: seq<real>, X: seq<Row>,
    n: nat,
    idxT: seq<bool>, idxC: seq<bool>,
    Yt: seq<real>, Yc: seq<real>, Xt: seq<Row>, Xc: seq<Row>)
  {
    /** Treated-arm size. The matching estimator reads `nt`, which the
        source never assigns; it is the length of the treated partition. */
    function nt(): nat { |Yt| }

    /** Control-arm size, likewise never assigned by the source. */
    function nc(): nat { |Yc| }
  }

  /** A constructed `POdata`: either fully partitioned, or, when validation
      fails, an object that only holds the raw arguments (the source logs an
      error and sets no derived attribute). */
  datatype Constructed =
    | Partitioned(data: POData)
    | Unvalidated(rawY: Column<real>, rawZ: Column<real>, rawX: Column<Row>)

  /** `verify_data`: all three arguments are ndarrays of one length. */
  predicate VerifyData(y: Column<real>, z: Column<real>, x: Column<Row>) {
    if !(x.NdArray? && y.NdArray? && z.NdArray?) then false
    else |y.items| == |z.items| == |x.items|
  }

  /** The invariants of a partitioned dataset: equal lengths, the masks are
      `Z == 1` and `Z == 0`, and each partition holds exactly the rows its mask
      selects, in their original order. */
  ghost predicate WellFormed(d: POData) {
    && |d.Y| == d.n && |d.Z| == d.n && |d.X| == d.n
    && d.idxT == Mask(d.Z, 1.0) && d.idxC == Mask(d.Z, 0.0)
    && PicksRows(d.Yt, d.Y, d.idxT) && PicksRows(d.Xt, d.X, d.idxT)
    && PicksRows(d.Yc, d.Y, d.idxC) && PicksRows(d.Xc, d.X, d.idxC)
  }

  /** `POdata(Y, Z, X)`. */
  function Construct(y: Column<real>, z: Column<real>, x: Column<Row>): (r: Constructed)
    ensures r.Partitioned? <==>
              (y.NdArray? && z.NdArray? && x.NdArray?
               && |y.items| == |z.items| && |z.items| == |x.items|)
    ensures r.Unvalidated? ==> r == Unvalidated(y, z, x)
    ensures r.Partitioned? ==>
              && r.data.Y == y.items && r.data.Z == z.items && r.data.X == x.items
              && r.data.n == |y.items|
              && WellFormed(r.data)
  {
    if VerifyData(y, z, x) then
      var Y, Z, X := y.items, z.items, x.items;
      var idxT, idxC := Mask(Z, 1.0), Mask(Z, 0.0);
      SelectPicksRows(Y, idxT);
      SelectPicksRows(X, idxT);
      SelectPicksRows(Y, idxC);
      SelectPicksRows(X, idxC);
      Partitioned(POData(Y, Z, X, |Y|, idxT, idxC,
                         Select(Y, idxT), Select(Y, idxC),
                         Select(X, idxT), Select(X, idxC)))
    else
      Unvalidated(y, z, x)
  }

  /** Arm sizes are the mask counts; when every `Z` is 0 or 1 the arms
      cover the whole sample. */
  lemma PartitionSizes(d: POData)
    requires WellFormed(d)
    ensures d.nt() == Count(Mask(d.Z, 1.0)) && |d.Xt| == d.nt()
    ensures d.nc() == Count(Mask(d.Z, 0.0)) && |d.Xc| == d.nc()
    ensures d.nt() + d.nc() <= d.n
    ensures (forall i :: 0 <= i < d.n ==> d.Z[i] == 0.0 || d.Z[i] == 1.0)
            ==> d.nt() + d.nc() == d.n
  {
    IndicesExact(d.idxT);
    IndicesExact(d.idxC);
    CountTwoValues(d.Z, 1.0, 0.0);
  }

  /** The k-th treated row is one row of the data, with `Z == 1`, and `Yt`
      and `Xt` come from the same row; likewise for the control arm. */
  lemma PartitionRowsAligned(d: POData)
    requires WellFormed(d)
    ensures forall k :: 0 <= k < d.nt() ==>
              var j := Indices(d.idxT)[k];
              j < d.n && d.Z[j] == 1.0 && d.Yt[k] == d.Y[j] && d.Xt[k] == d.X[j]
    ensures forall k :: 0 <= k < d.nc() ==>
              var j := Indices(d.idxC)[k];
              j < d.n && d.Z[j] == 0.0 && d.Yc[k] == d.Y[j] && d.Xc[k] == d.X[j]
  {
    IndicesExact(d.idxT);
    IndicesExact(d.idxC);
    forall k | 0 <= k < d.nt()
      ensures Indices(d.idxT)[k] in Indices(d.idxT)
    {
    }
    forall k | 0 <= k < d.nc()
      ensures Indices(d.idxC)[k] in Indices(d.idxC)
    {
    }
  }

  /** A row whose treatment is neither 0 nor 1 is in neither partition. */
  lemma UnassignedRowsDropped(d: POData, i: nat)
    requires WellFormed(d)
    requires i < d.n && d.Z[i] != 0.0 && d.Z[i] != 1.0
    ensures i !in Indices(d.idxT) && i !in Indices(d.idxC)
  {
    IndicesExact(d.idxT);
    IndicesExact(d.idxC);
  }
}
