/**
  lib/config.py: the two global settings that the command line overrides, and the
  lookup of a storage device configuration in the user's `data` module, checked for
  mandatory fields.  The `data` module is a map from attribute name to its value;
  a device configuration is a dictionary, here a map from field name to value.
*/
module Config {
  import opened Wrappers
  import Text

  /** `ignore_ssh_banner` before the command line sets it. */
  const IgnoreSshBanner: bool := false

  /** `ssh_output_max_lines` before the command line sets it. */
  const SshOutputMaxLines: int := 20

  /** Position in `required` of the first field missing from `config`, if any. */
  function FirstMissing<V>(required: seq<string>, config: map<string, V>): (r: Option<nat>)
    ensures r.None? <==> forall i :: 0 <= i < |required| ==> required[i] in config
    ensures r.Some? ==> r.value < |required| && required[r.value] !in config
                        && forall j :: 0 <= j < r.value ==> required[j] in config
    decreases |required|
  {
    if required == [] then None
    else if required[0] !in config then Some(0)
    else match FirstMissing(required[1..], config)
      case None => None
      case Some(i) => Some(i + 1)
  }

  /**
    `sr_device_config(datakey, required=...)`: the configuration named `datakey`
    when it has every required field; otherwise the exception text.
  */
  function SrDeviceConfig<V>(data: map<string, map<string, V>>, datakey: string, required: seq<string>)
    : (r: Result<map<string, V>>)
    ensures r.Ok? <==> datakey in data && forall i :: 0 <= i < |required| ==> required[i] in data[datakey]
    ensures r.Ok? ==> r.value == data[datakey]
    ensures datakey !in data ==> r == Err("AttributeError: module 'data' has no attribute " + Text.Repr(datakey))
    ensures datakey in data && r.Err? ==>
              exists i :: 0 <= i < |required| && required[i] !in data[datakey]
                          && (forall j :: 0 <= j < i ==> required[j] in data[datakey])
                          && r.msg == datakey + " lacks mandatory " + Text.Repr(required[i])
  {
    if datakey !in data then Err("AttributeError: module 'data' has no attribute " + Text.Repr(datakey))
    else match FirstMissing(required, data[datakey])
      case None => Ok(data[datakey])
      case Some(i) => Err(datakey + " lacks mandatory " + Text.Repr(required[i]))
  }

  /** Extra fields never matter: a configuration that passes keeps passing when fields are added. */
  lemma ExtraFieldsAccepted<V>(data: map<string, map<string, V>>, datakey: string, required: seq<string>,
                               field: string, value: V)
    requires SrDeviceConfig(data, datakey, required).Ok?
    ensures SrDeviceConfig(data[datakey := data[datakey][field := value]], datakey, required).Ok?
  {
  }

  /** Requiring a prefix of the fields is weaker: what passes with `required` passes with any prefix of it. */
  lemma PrefixRequirementWeaker<V>(data: map<string, map<string, V>>, datakey: string, required: seq<string>, k: nat)
    requires k <= |required|
    requires SrDeviceConfig(data, datakey, required).Ok?
    ensures SrDeviceConfig(data, datakey, required[..k]) == SrDeviceConfig(data, datakey, required)
  {
  }
}
