/** The per-stream configuration of src/core/format/config.rs and its
    precedence merge: default < global < local < explicit. */
module StreamConfig {
  import opened Wrappers

  datatype StreamOrder = LastUsed | Lexographic

  /** The setting a configuration layer supplies, if the layer is present and
      sets it. */
  function Setting(layer: Option<Config>): Option<StreamOrder> {
    if layer.Some? then layer.value.streamOrder else None
  }

  /** Reference definition of the merge: the first layer, from the most
      preferred, that sets the option; the fallback when none does. */
  function FirstSet(layers: seq<Option<Config>>, fallback: StreamOrder): (r: StreamOrder)
    ensures (forall i :: 0 <= i < |layers| ==> Setting(layers[i]).None?) ==> r == fallback
    ensures forall i :: (0 <= i < |layers| && Setting(layers[i]).Some?
                          && forall j :: 0 <= j < i ==> Setting(layers[j]).None?) ==> r == Setting(layers[i]).value
  {
    if layers == [] then fallback
    else if Setting(layers[0]).Some? then Setting(layers[0]).value
    else FirstSet(layers[1..], fallback)
  }

  datatype Config = Config(streamOrder: Option<StreamOrder>) {

    /** `Config::default`: order streams by last use. */
    static function Default(): Config {
      Config(Some(LastUsed))
    }

    /** `rcoalesce`: an absent right-hand layer leaves this one as it is; a
        present one overrides each option it sets (`rhs.or(self)`). */
    function RCoalesce(rhs: Option<Config>): (r: Config)
      ensures rhs.None? ==> r == this
      ensures rhs.Some? && rhs.value.streamOrder.Some? ==> r.streamOrder == rhs.value.streamOrder
      ensures rhs.Some? && rhs.value.streamOrder.None? ==> r.streamOrder == streamOrder
      ensures streamOrder.Some? ==> r.streamOrder.Some?
    {
      match rhs
      case None => this
      case Some(config) => Config(config.streamOrder.Or(streamOrder))
    }

    /** `Config::coalesce`: start from the default and let the global, then
        the local, then the explicit layer override it. */
    static function Coalesce(explicit: Option<Config>, local: Option<Config>, global: Option<Config>): (r: Config)
      ensures r.streamOrder.Some?
      ensures Setting(explicit).Some? ==> r.streamOrder == Setting(explicit)
      ensures Setting(explicit).None? && Setting(local).Some? ==> r.streamOrder == Setting(local)
      ensures Setting(explicit).None? && Setting(local).None? && Setting(global).Some? ==>
                r.streamOrder == Setting(global)
      ensures Setting(explicit).None? && Setting(local).None? && Setting(global).None? ==>
                r == Default()
    {
      Default().RCoalesce(global).RCoalesce(local).RCoalesce(explicit)
    }
  }

  /** The merge agrees with the reference definition: the explicit layer is
      preferred to the local, the local to the global, the global to the
      default. */
  lemma CoalesceIsFirstSet(explicit: Option<Config>, local: Option<Config>, global: Option<Config>)
    ensures Config.Coalesce(explicit, local, global).streamOrder
            == Some(FirstSet([explicit, local, global], LastUsed))
  {
    var layers := [explicit, local, global];
    assert layers[0] == explicit && layers[1] == local && layers[2] == global;
  }

  /** With no layer at all the result is the default. */
  lemma CoalesceOfNothing()
    ensures Config.Coalesce(None, None, None) == Config.Default()
    ensures Config.Default().streamOrder == Some(LastUsed)
  {
  }
}
