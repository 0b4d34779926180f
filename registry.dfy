/** The trained-model artifacts on disk, as a store from path to artifact.  The
    fitting libraries are not modelled: an artifact records what its model was
    fitted on, and what the model then predicts is a parameter of the code that
    loads it. */
module Registry {
  import opened Wrappers

  /** The fitted MinMaxScaler of one stock: an invertible affine map. */
  datatype AffineMap = AffineMap(scale: real, offset: real)
  type Scaler = s: AffineMap | s.scale != 0.0 witness AffineMap(1.0, 0.0)

  /** `scaler.transform` on one value. */
  function Transform(s: Scaler, x: real): real
  {
    x * s.scale + s.offset
  }

  /** `scaler.inverse_transform` on one value. */
  function Inverse(s: Scaler, y: real): real
  {
    (y - s.offset) / s.scale
  }

  /** The two directions of the scaler undo each other. */
  lemma ScalerRoundTrip(s: Scaler, x: real, y: real)
    ensures Inverse(s, Transform(s, x)) == x
    ensures Transform(s, Inverse(s, y)) == y
  {
    assert (x * s.scale + s.offset - s.offset) / s.scale == x * s.scale / s.scale;
  }

  function TransformAll(s: Scaler, xs: seq<real>): (r: seq<real>)
    ensures |r| == |xs| && forall k :: 0 <= k < |xs| ==> r[k] == Transform(s, xs[k])
  {
    seq(|xs|, k requires 0 <= k < |xs| => Transform(s, xs[k]))
  }

  function InverseAll(s: Scaler, ys: seq<real>): (r: seq<real>)
    ensures |r| == |ys| && forall k :: 0 <= k < |ys| ==> r[k] == Inverse(s, ys[k])
  {
    seq(|ys|, k requires 0 <= k < |ys| => Inverse(s, ys[k]))
  }

  /** A Keras network, identified by the training pairs it was fitted on. */
  datatype KerasModel = KerasModel(inputs: seq<seq<real>>, targets: seq<real>)

  /** A Prophet model, identified by its (ds, y) training frame. */
  datatype ProphetModel = ProphetModel(frame: seq<(int, real)>)

  /** A random forest (fixed random_state), identified by its training rows. */
  datatype RfModel = RfModel(features: seq<seq<real>>, targets: seq<real>)

  /** An ARIMA fit: its training series (missing values as None) and its order
      (p, d, q). */
  datatype ArimaModel = ArimaModel(train: seq<Option<real>>, p: nat, d: nat, q: nat)

  /** The `models/` directory tree: one map per kind of file, keyed by path. */
  class ArtifactStore {
    var kerasModels: map<string, KerasModel>
    var scalers: map<string, Scaler>
    var prophetModels: map<string, ProphetModel>
    var rfModels: map<string, RfModel>
    var arimaModels: map<string, ArimaModel>

    constructor ()
      ensures kerasModels == map[] && scalers == map[] && prophetModels == map[]
      ensures rfModels == map[] && arimaModels == map[]
    {
      kerasModels, scalers, prophetModels := map[], map[], map[];
      rfModels, arimaModels := map[], map[];
    }
  }
}
