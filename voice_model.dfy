/**
 * `VoiceModel` and `VoiceModelController`: the trained-model record, the training
 * server's completion callback, and the ownership guards of model creation and lookup.
 */
module VoiceModels {
  import opened Wrappers
  import opened Text
  import opened Time
  import opened Uuid
  import Users
  import Voice
  import Callback
  import AuthFilter

  /** `VoiceModel.Status`. */
  datatype ModelStatus = Pending | Training | Done | Error

  /** `Status.name()`. */
  function StatusName(s: ModelStatus): string {
    match s
    case Pending => "PENDING"
    case Training => "TRAINING"
    case Done => "DONE"
    case Error => "ERROR"
  }

  /**
   * A `voice_models` row with the fields the controller reads and writes, including the
   * model name, job id, error message and update time that the controller uses.
   */
  datatype ModelState = ModelState(
    id: Option<Uuid>, user: Option<Uuid>, voiceFile: Option<Uuid>, modelName: Option<string>,
    modelPath: Option<string>, status: Option<ModelStatus>, previewUrl: Option<string>, jobId: Option<string>,
    errorMessage: Option<string>, createdAt: Option<Instant>, completedAt: Option<Instant>, updatedAt: Option<Instant>)

  /** The entity object, whose setters the callback calls one after another. */
  class VoiceModel {
    var id: Option<Uuid>
    var user: Option<Uuid>
    var voiceFile: Option<Uuid>
    var modelName: Option<string>
    var modelPath: Option<string>
    var status: Option<ModelStatus>
    var previewUrl: Option<string>
    var jobId: Option<string>
    var errorMessage: Option<string>
    var createdAt: Option<Instant>
    var completedAt: Option<Instant>
    var updatedAt: Option<Instant>

    function State(): ModelState
      reads this
    {
      ModelState(id, user, voiceFile, modelName, modelPath, status, previewUrl, jobId,
                 errorMessage, createdAt, completedAt, updatedAt)
    }

    constructor (s: ModelState)
      ensures State() == s
    {
      id, user, voiceFile, modelName := s.id, s.user, s.voiceFile, s.modelName;
      modelPath, status, previewUrl, jobId := s.modelPath, s.status, s.previewUrl, s.jobId;
      errorMessage, createdAt, completedAt, updatedAt := s.errorMessage, s.createdAt, s.completedAt, s.updatedAt;
    }
  }

  /** `UUID.fromString`: the UUID a text denotes, or `None` where it throws `IllegalArgumentException`. */
  type UuidParse = string -> Option<Uuid>

  /** The `nullable = false` column of `modelPath`: a row the table accepts has a model path. */
  predicate Storable(m: ModelState) {
    m.modelPath.Some?
  }

  /** The `voice_models` table, keyed by id. */
  class VoiceModelRepository {
    var models: map<Uuid, ModelState>

    ghost predicate Valid()
      reads this
    {
      forall id :: id in models ==> models[id].id == Some(id) && Storable(models[id])
    }

    constructor (models: map<Uuid, ModelState>)
      requires forall id :: id in models ==> models[id].id == Some(id) && Storable(models[id])
      ensures Valid() && this.models == models
    {
      this.models := models;
    }

    /** `findById`: a fresh entity object loaded from the row. */
    method FindById(id: Uuid) returns (m: Option<VoiceModel>)
      ensures m.Some? <==> id in models
      ensures m.Some? ==> fresh(m.value) && m.value.State() == models[id]
    {
      if id in models {
        var e := new VoiceModel(models[id]);
        m := Some(e);
      } else {
        m := None;
      }
    }

    /**
     * `save` of a loaded entity: the row with its key is overwritten, or, when the row has
     * no model path, the write is refused (the NOT NULL column) and the table is unchanged.
     */
    method Save(m: VoiceModel) returns (ok: bool)
      requires Valid() && m.id.Some?
      modifies this
      ensures Valid()
      ensures ok <==> Storable(m.State())
      ensures ok ==> models == old(models)[m.id.value := m.State()]
      ensures !ok ==> models == old(models)
    {
      ok := Storable(m.State());
      if ok {
        models := models[m.id.value := m.State()];
      }
    }
  }

  // ---------------------------------------------------------------------------
  // The completion callback
  // ---------------------------------------------------------------------------

  /**
   * The row after a callback reaches the status mapping: DONE with the reported path and
   * preview for a successful status; ERROR otherwise, with the reported message (or
   * "Training failed") for a failed one and "Unknown status: <status>" for any other;
   * completion and update time both `now`.
   */
  function AfterCallback(m: ModelState, req: Callback.CallbackRequest, now: Instant): ModelState {
    var s := req.status;
    var mapped :=
      if Callback.IsSuccessful(s) then m.(status := Some(Done), modelPath := req.modelPath, previewUrl := req.previewUrl)
      else if Callback.IsFailed(s) then m.(status := Some(Error), errorMessage := Some(req.errorMessage.GetOr("Training failed")))
      else m.(status := Some(Error), errorMessage := Some("Unknown status: " + s.GetOr("null")));
    mapped.(completedAt := Some(now), updatedAt := Some(now))
  }

  /**
   * The callback marks a model DONE exactly for a successful report and ERROR for every
   * other; only a successful report sets the path and the preview, only an unsuccessful one
   * the error message; the key, owner and source file never change.
   */
  lemma CallbackOutcome(m: ModelState, req: Callback.CallbackRequest, now: Instant)
    ensures var r := AfterCallback(m, req, now);
      && (r.status == Some(Done) <==> Callback.IsSuccessful(req.status))
      && (r.status == Some(Error) <==> !Callback.IsSuccessful(req.status))
      && r.completedAt == Some(now) && r.updatedAt == Some(now)
      && (Callback.IsSuccessful(req.status) ==>
            r.modelPath == req.modelPath && r.previewUrl == req.previewUrl && r.errorMessage == m.errorMessage)
      && (!Callback.IsSuccessful(req.status) ==>
            r.modelPath == m.modelPath && r.previewUrl == m.previewUrl && r.errorMessage.Some?)
      && (Callback.IsFailed(req.status) ==> r.errorMessage == Some(req.errorMessage.GetOr("Training failed")))
      && (!Callback.IsSuccessful(req.status) && !Callback.IsFailed(req.status) ==>
            StartsWith(r.errorMessage.value, "Unknown status: "))
      && r.id == m.id && r.user == m.user && r.voiceFile == m.voiceFile && r.createdAt == m.createdAt
  {
    Callback.SuccessAndFailureDisjoint(req.status);
  }

  /**
   * A report whose status the validation pattern admits never takes the unknown-status
   * branch: DONE and SUCCESS give DONE, ERROR and FAILED give ERROR with the reported message.
   */
  lemma ValidCallbackOutcome(m: ModelState, req: Callback.CallbackRequest, now: Instant)
    requires Callback.StatusValid(req.status)
    ensures var r := AfterCallback(m, req, now);
      && (r.status == Some(Done) <==> req.status.value == "DONE" || req.status.value == "SUCCESS")
      && (r.status == Some(Error) ==> r.errorMessage == Some(req.errorMessage.GetOr("Training failed")))
  {
    Callback.ValidStatusClassified(req.status);
  }

  /** The model, owner and file tables the controller reads, and the configured `xauth.secret`. */
  class VoiceModelController {
    const models: VoiceModelRepository
    const users: Users.UserRepository
    const files: Voice.VoiceFileRepository
    const secret: Option<string>

    constructor (models: VoiceModelRepository, users: Users.UserRepository, files: Voice.VoiceFileRepository, secret: Option<string>)
      ensures this.models == models && this.users == users && this.files == files && this.secret == secret
    {
      this.models, this.users, this.files, this.secret := models, users, files, secret;
    }

    /** The `X-AUTH` check: a secret is configured and the header equals it. */
    predicate Authorized(xauth: string) {
      secret.Some? && xauth == secret.value
    }

    /**
     * `modelTrainCallback(xauth, req)`, answering with the HTTP status. The `X-AUTH` header
     * is required, so a request without it is answered 400 by the framework before this
     * method runs. 401 for a wrong or unconfigured secret, 400 for a blank model id, 404 for an id that does not parse or names
     * no model, 500 when a successful report carries no model path (the table refuses the
     * null `modelPath`, and the catch-all answers 500), and otherwise 200 after the row has
     * been rewritten by `AfterCallback`. Only the 200 path writes anything.
     */
    method ModelTrainCallback(xauth: string, req: Callback.CallbackRequest, parse: UuidParse, now: Instant)
      returns (code: int)
      requires models.Valid()
      modifies models
      ensures models.Valid()
      ensures code == 401 <==> !Authorized(xauth)
      ensures code == 400 <==> Authorized(xauth) && (req.modelId.None? || Trim(req.modelId.value) == [])
      ensures code == 404 <==>
                Authorized(xauth) && req.modelId.Some? && Trim(req.modelId.value) != []
                && (parse(req.modelId.value).None? || parse(req.modelId.value).value !in old(models.models))
      ensures code == 500 <==>
                Authorized(xauth) && req.modelId.Some? && Trim(req.modelId.value) != []
                && parse(req.modelId.value).Some? && parse(req.modelId.value).value in old(models.models)
                && Callback.IsSuccessful(req.status) && req.modelPath.None?
      ensures code == 200 <==>
                Authorized(xauth) && req.modelId.Some? && Trim(req.modelId.value) != []
                && parse(req.modelId.value).Some? && parse(req.modelId.value).value in old(models.models)
                && !(Callback.IsSuccessful(req.status) && req.modelPath.None?)
      ensures code in {200, 400, 401, 404, 500}
      ensures code != 200 ==> models.models == old(models.models)
      ensures code == 200 ==>
                var id := parse(req.modelId.value).value;
                models.models == old(models.models)[id := AfterCallback(old(models.models)[id], req, now)]
    {
      if !Authorized(xauth) {
        return 401;
      }
      if req.modelId.None? || Trim(req.modelId.value) == [] {
        return 400;
      }
      var modelId := parse(req.modelId.value);
      if modelId.None? {
        return 404;
      }
      var found := models.FindById(modelId.value);
      if found.None? {
        return 404;
      }
      var model := found.value;
      RecordOutcome(model, req, now);
      var saved := models.Save(model);
      code := if saved then 200 else 500;
    }

    /** The setter calls of the callback on the loaded entity, from the status mapping to the two times. */
    method RecordOutcome(model: VoiceModel, req: Callback.CallbackRequest, now: Instant)
      modifies model
      ensures model.State() == AfterCallback(old(model.State()), req, now)
    {
      var status := req.status;
      var successful, failed := Callback.IsSuccessful(status), Callback.IsFailed(status);
      if successful {
        model.status := Some(Done);
        model.modelPath := req.modelPath;
        model.previewUrl := req.previewUrl;
      } else if failed {
        model.status := Some(Error);
        model.errorMessage := Some(req.errorMessage.GetOr("Training failed"));
      } else {
        model.status := Some(Error);
        model.errorMessage := Some("Unknown status: " + status.GetOr("null"));
      }
      model.completedAt := Some(now);
      model.updatedAt := Some(now);
    }

    // -------------------------------------------------------------------------
    // Ownership guards
    // -------------------------------------------------------------------------

    /**
     * The guards of `createModel(voiceFileId, modelName)`, answering with the HTTP status
     * and writing nothing: 400 when either id does not parse or names nothing, 500 for a
     * voice file without a wallet (a null dereference), 403 when the file's wallet is not
     * the caller's (ignoring case), and 200 when the model service may go ahead.
     */
    method CreateModel(voiceFileId: string, auth: AuthFilter.Web3AuthenticatedUser, parse: UuidParse)
      returns (code: int)
      ensures code == 400 <==>
                || parse(auth.userId).None? || parse(voiceFileId).None?
                || !UserWithId(users.users, parse(auth.userId).value) || parse(voiceFileId).value !in files.files
      ensures code == 500 <==> code != 400 && files.files[parse(voiceFileId).value].walletAddress.None?
      ensures code == 403 <==>
                code != 400 && code != 500
                && !EqualsIgnoreCase(files.files[parse(voiceFileId).value].walletAddress.value, auth.walletAddress)
      ensures code == 200 ==> Voice.OwnedBy(files.files[parse(voiceFileId).value], Some(auth.walletAddress))
      ensures code in {200, 400, 403, 500}
    {
      var userUuid := parse(auth.userId);
      var fileUuid := parse(voiceFileId);
      if userUuid.None? || fileUuid.None? {
        return 400;
      }
      if !UserWithId(users.users, userUuid.value) {
        return 400;
      }
      var found := files.FindById(fileUuid.value);
      if found.None? {
        return 400;
      }
      var file := found.value;
      if file.walletAddress.None? {
        return 500;
      }
      if !EqualsIgnoreCase(file.walletAddress.value, auth.walletAddress) {
        return 403;
      }
      code := 200;
    }

    /**
     * `getModel(id)` as written. The answer is built with `Map.of`, which refuses null
     * values, so a model without a creation or completion time (every model still pending
     * or training) is answered with 500 instead of its state; a null status fails the same way.
     */
    method GetModelAsWritten(id: string, auth: AuthFilter.Web3AuthenticatedUser, parse: UuidParse)
      returns (code: int, view: Option<ModelView>)
      requires models.Valid()
      ensures code == 400 <==> parse(id).None? || parse(id).value !in models.models
      ensures code == 403 <==> code != 400 && OwnerMismatch(models.models[parse(id).value], auth)
      ensures code == 500 <==>
                code != 400 && code != 403 &&
                var m := models.models[parse(id).value];
                m.user.None? || m.status.None? || m.createdAt.None? || m.completedAt.None?
      ensures code == 200 <==> view.Some?
      ensures view.Some? ==> view.value == ViewOf(models.models[parse(id).value])
      ensures code in {200, 400, 403, 500}
    {
      var modelId := parse(id);
      if modelId.None? {
        return 400, None;
      }
      var found := models.FindById(modelId.value);
      if found.None? {
        return 400, None;
      }
      var model := found.value;
      if model.user.None? {
        return 500, None;
      }
      if ToString(model.user.value) != auth.userId {
        return 403, None;
      }
      if model.status.None? || model.createdAt.None? || model.completedAt.None? {
        return 500, None;
      }
      code, view := 200, Some(ViewOf(model.State()));
    }

    /**
     * `getModel(id)` as intended: the owner always gets the model's state, with absent
     * times left absent; only a missing owner or status still fails.
     */
    method GetModel(id: string, auth: AuthFilter.Web3AuthenticatedUser, parse: UuidParse)
      returns (code: int, view: Option<ModelView>)
      requires models.Valid()
      ensures code == 400 <==> parse(id).None? || parse(id).value !in models.models
      ensures code == 403 <==> code != 400 && OwnerMismatch(models.models[parse(id).value], auth)
      ensures code == 500 <==>
                code != 400 && code != 403 &&
                var m := models.models[parse(id).value];
                m.user.None? || m.status.None?
      ensures code == 200 <==> view.Some?
      ensures view.Some? ==> view.value == ViewOf(models.models[parse(id).value])
      ensures code == 200 ==> ToString(models.models[parse(id).value].user.value) == auth.userId
      ensures code in {200, 400, 403, 500}
    {
      var modelId := parse(id);
      if modelId.None? {
        return 400, None;
      }
      var found := models.FindById(modelId.value);
      if found.None? {
        return 400, None;
      }
      var model := found.value;
      if model.user.None? {
        return 500, None;
      }
      if ToString(model.user.value) != auth.userId {
        return 403, None;
      }
      if model.status.None? {
        return 500, None;
      }
      code, view := 200, Some(ViewOf(model.State()));
    }
  }

  /** `userRepository.findById(id).isPresent()` on the table filed by wallet. */
  predicate UserWithId(t: Users.UserTable, id: Uuid) {
    exists w :: w in t && t[w].id == id
  }

  /** The 403 test of `getModel`: the model has an owner whose id text differs from the principal's. */
  predicate OwnerMismatch(m: ModelState, auth: AuthFilter.Web3AuthenticatedUser) {
    m.user.Some? && ToString(m.user.value) != auth.userId
  }

  /** The body `getModel` answers with: the nullable texts shown as "" and the times as they are. */
  datatype ModelView = ModelView(
    modelId: string, status: string, modelName: string, modelPath: string, previewUrl: string,
    jobId: string, createdAt: Option<Instant>, completedAt: Option<Instant>, errorMessage: string)

  function ViewOf(m: ModelState): ModelView
    requires m.id.Some? && m.status.Some?
  {
    ModelView(ToString(m.id.value), StatusName(m.status.value), m.modelName.GetOr(""), m.modelPath.GetOr(""),
              m.previewUrl.GetOr(""), m.jobId.GetOr(""), m.createdAt, m.completedAt, m.errorMessage.GetOr(""))
  }

  /**
   * Only the owner can read a model: two principals whose user ids both pass the check for
   * the same model carry the same id text, which is the canonical text of one UUID.
   */
  lemma OnlyOwnerReads(m: ModelState, a: AuthFilter.Web3AuthenticatedUser, u: Uuid)
    requires m.user.Some? && !OwnerMismatch(m, a)
    requires a.userId == ToString(u)
    ensures m.user.value == u
  {
    Dashless(m.user.value);
    Dashless(u);
  }

  /**
   * A freshly created model, still pending with no completion time, read by its owner: the
   * as-written lookup answers 500, the corrected one 200 with the pending state.
   */
  method PendingModelExample(users: Users.UserRepository, files: Voice.VoiceFileRepository, now: Instant)
    returns (written: int, corrected: int, shown: Option<ModelView>)
    ensures written == 500 && corrected == 200
    ensures shown.Some? && shown.value.status == "PENDING" && shown.value.completedAt.None?
  {
    var owner: Uuid := 1;
    var key: Uuid := 2;
    var row := ModelState(Some(key), Some(owner), None, None, Some(""), Some(Pending), None, None,
                          None, Some(now), None, None);
    var repo := new VoiceModelRepository(map[key := row]);
    var controller := new VoiceModelController(repo, users, files, Some("secret"));
    var principal := AuthFilter.Web3AuthenticatedUser(ToString(owner), "0x");
    var parse: UuidParse := (s: string) => Some(key);
    var unused;
    written, unused := controller.GetModelAsWritten("model", principal, parse);
    corrected, shown := controller.GetModel("model", principal, parse);
  }
}
