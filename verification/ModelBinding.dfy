/**
 The MLX backend's one mutable model, as its owner of the lifecycle guard sees it.

 A loaded model is represented by the size it was loaded with.  Loading can fail before the model is
 assigned, or after that but before the sizes are recorded.
 */
module ModelBinding {
  import opened Wrappers
  import LifecycleGuard

  datatype LoadError = LoadFailed | WrongSize

  class MlxBackend {
    var model: Option<string>
    var currentModelSize: Option<string>
    var modelSize: string

    /** The fields as the lifecycle guard's transition system knows them. */
    function Fields(): LifecycleGuard.Model
      reads this
    {
      LifecycleGuard.Model(model, currentModelSize, modelSize)
    }

    /** The recorded size never names a model other than the loaded one. */
    predicate Valid()
      reads this
    {
      currentModelSize.Some? ==> model == currentModelSize
    }

    constructor (defaultSize: string)
      ensures Valid() && model == None && modelSize == defaultSize
    {
      model, currentModelSize, modelSize := None, None, defaultSize;
    }

    /** Does the field writes of an executor thread that loads: all three, the first only, or none. */
    method LoadModelSync(size: string, failsBefore: bool, failsAfter: bool) returns (result: Result<(), LoadError>)
      requires Valid() && currentModelSize == None
      modifies this
      ensures Valid()
      ensures result.Ok? <==> !failsBefore && !failsAfter
      ensures var written := if failsBefore then 0 else if failsAfter then 1 else LifecycleGuard.FIELDS;
              Fields() == LifecycleGuard.WriteFields(old(Fields()), size, written)
      ensures result.Ok? ==> model == Some(size) && currentModelSize == Some(size) && modelSize == size
      ensures result.Err? ==> result.error == LoadFailed && currentModelSize == None && modelSize == old(modelSize)
    {
      if failsBefore {
        return Err(LoadFailed);
      }
      model := Some(size);
      if failsAfter {
        return Err(LoadFailed);
      }
      assert Fields() == LifecycleGuard.WriteFields(old(Fields()), size, 1);
      currentModelSize := Some(size);
      assert Fields() == LifecycleGuard.WriteFields(old(Fields()), size, 2);
      modelSize := size;
      result := Ok(());
    }

    method UnloadModel()
      requires Valid()
      modifies this
      ensures Valid() && model == None && currentModelSize == None && modelSize == old(modelSize)
      ensures old(model).Some? ==> Fields() == LifecycleGuard.Unloaded(old(Fields()))
    {
      if model != None {
        model := None;
        currentModelSize := None;
      }
    }

    /** The loader is not called when the wanted size is already there. */
    method EnsureModelLoaded(size: string, failsBefore: bool, failsAfter: bool)
      returns (result: Result<(), LoadError>, loads: nat)
      requires Valid()
      modifies this
      ensures Valid()
      ensures result.Ok? ==> model == Some(size) && currentModelSize == Some(size)
      ensures old(currentModelSize) == Some(size) ==>
                result.Ok? && loads == 0 && model == old(model) && modelSize == old(modelSize)
      ensures old(currentModelSize) != Some(size) ==> loads == 1 && (result.Ok? <==> !failsBefore && !failsAfter)
      ensures result.Err? ==> result.error == LoadFailed && currentModelSize == None
    {
      loads := 0;
      if model != None && currentModelSize == Some(size) {
        return Ok(()), loads;
      }
      if model != None && currentModelSize != Some(size) {
        UnloadModel();
      }
      result := LoadModelSync(size, failsBefore, failsAfter);
      loads := 1;
    }

    /** Entering a request binds its size; the check against a different loaded size never fires. */
    method EnterRequest(requested: string, failsBefore: bool, failsAfter: bool)
      returns (result: Result<string, LoadError>)
      requires Valid()
      modifies this
      ensures Valid()
      ensures result.Ok? ==>
                && result.value == (if requested != "" then requested else old(modelSize))
                && model == Some(result.value) && currentModelSize == Some(result.value)
      ensures result != Err(WrongSize)
    {
      var size := if requested != "" then requested else modelSize;
      var loaded, _ := EnsureModelLoaded(size, failsBefore, failsAfter);
      if loaded.Err? {
        return Err(loaded.error);
      }
      if currentModelSize != Some(size) {
        return Err(WrongSize);
      }
      result := Ok(size);
    }
  }
}
