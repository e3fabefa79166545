/** The task-dispatch decorator of the manager service
    (internal/core/service/manager/manager.task.go): the three write operations
    become tasks on the critical queue for a worker to run later, the four reads go
    straight to the wrapped service. */
module ManagerTask {
  import opened Common

  datatype SignUpRequest = SignUpRequest(email: string, password: string, firstName: string, lastName: string, phoneNumber: string)
  datatype UserUpdate = UserUpdate(id: int, email: string, firstName: string, lastName: string, phoneNumber: string)
  datatype OAuth2SaveUser = OAuth2SaveUser(email: string, firstName: string, lastName: string, image: string)
  datatype LoginRequest = LoginRequest(email: string, password: string)
  /** `model.Users`, what `UserInfo` answers. */
  datatype Users = Users(id: int, email: string, firstName: string, lastName: string, phoneNumber: string, image: string, role: string)
  /** The uploaded file's header (`*multipart.FileHeader`). */
  datatype FileHeader = FileHeader(filename: string, size: int)

  /** The queues of the task broker. */
  datatype Queue = CriticalQueue | DefaultQueue

  /** The request a task carries. */
  datatype Payload =
    | SignUpPayload(signUp: SignUpRequest)
    | UserUpdatePayload(update: UserUpdate)
    | OAuth2Payload(oauth: OAuth2SaveUser)

  /** `worker.NewTask(name, payload)` placed on a queue. */
  datatype WorkerTask = WorkerTask(queue: Queue, name: string, payload: Payload)

  /** The methods whose name `worker.GetTaskName` is asked for. */
  datatype Handler = SignUpHandler | UpdateUserInfoHandler | OAuth2SaveUserHandler

  /** The wrapped service (`IManager`): what each read operation answers. */
  datatype ManagerService = ManagerService(
    login: LoginRequest -> Result<string>,
    checkLoginEmail: string -> Option<Error>,
    userInfo: string -> Result<Users>,
    uploadAvatar: (string, FileHeader) -> Option<Error>)

  /** A call that reached the wrapped service. */
  datatype ServiceCall =
    | LoginCall(req: LoginRequest)
    | CheckLoginEmailCall(email: string)
    | UserInfoCall(email: string)
    | UploadAvatarCall(email: string, file: FileHeader)

  class Task {
    /** The tasks this client handed to the broker, oldest first. */
    var queue: seq<WorkerTask>
    /** The calls that reached the wrapped service. */
    ghost var delegated: seq<ServiceCall>
    /** `worker.GetTaskName`. */
    const taskName: Handler -> string
    const service: ManagerService

    /** Every task this client enqueues goes to the critical queue. */
    ghost predicate AllCritical()
      reads this
    {
      forall i :: 0 <= i < |queue| ==> queue[i].queue == CriticalQueue
    }

    /** `UseTask(service)`. */
    constructor UseTask(service: ManagerService, taskName: Handler -> string)
      ensures this.service == service && this.taskName == taskName
      ensures queue == [] && delegated == [] && AllCritical()
    {
      this.service := service;
      this.taskName := taskName;
      queue := [];
      delegated := [];
    }

    /** `worker.Exec(queue, task)`; `brokerErr` is what the broker answers, and a
        refused task is not queued. */
    method Exec(q: Queue, task: WorkerTask, brokerErr: Option<Error>) returns (err: Option<Error>)
      requires task.queue == q
      modifies this
      ensures queue == if brokerErr.None? then old(queue) + [task] else old(queue)
      ensures err == brokerErr && delegated == old(delegated)
      ensures old(AllCritical()) && q == CriticalQueue ==> AllCritical()
    {
      if brokerErr.None? {
        queue := queue + [task];
      }
      err := brokerErr;
    }

    /** `SignUp`: one critical task named after the handler and carrying the
        request; the service is not called. */
    method SignUp(req: SignUpRequest, brokerErr: Option<Error>) returns (err: Option<Error>)
      modifies this
      ensures queue == old(queue) + (if brokerErr.None? then [WorkerTask(CriticalQueue, taskName(SignUpHandler), SignUpPayload(req))] else [])
      ensures err == brokerErr && delegated == old(delegated)
      ensures old(AllCritical()) ==> AllCritical()
    {
      err := Exec(CriticalQueue, WorkerTask(CriticalQueue, taskName(SignUpHandler), SignUpPayload(req)), brokerErr);
    }

    /** `UpdateUserInfo`: one critical task carrying the update. */
    method UpdateUserInfo(req: UserUpdate, brokerErr: Option<Error>) returns (err: Option<Error>)
      modifies this
      ensures queue == old(queue) + (if brokerErr.None? then [WorkerTask(CriticalQueue, taskName(UpdateUserInfoHandler), UserUpdatePayload(req))] else [])
      ensures err == brokerErr && delegated == old(delegated)
      ensures old(AllCritical()) ==> AllCritical()
    {
      err := Exec(CriticalQueue, WorkerTask(CriticalQueue, taskName(UpdateUserInfoHandler), UserUpdatePayload(req)), brokerErr);
    }

    /** `OAuth2SaveUser`: one critical task carrying the OAuth2 user. */
    method OAuth2SaveUser(req: OAuth2SaveUser, brokerErr: Option<Error>) returns (err: Option<Error>)
      modifies this
      ensures queue == old(queue) + (if brokerErr.None? then [WorkerTask(CriticalQueue, taskName(OAuth2SaveUserHandler), OAuth2Payload(req))] else [])
      ensures err == brokerErr && delegated == old(delegated)
      ensures old(AllCritical()) ==> AllCritical()
    {
      err := Exec(CriticalQueue, WorkerTask(CriticalQueue, taskName(OAuth2SaveUserHandler), OAuth2Payload(req)), brokerErr);
    }

    /** `Login`: the service's answer; nothing is queued. */
    method Login(req: LoginRequest) returns (r: Result<string>)
      modifies this
      ensures r == service.login(req)
      ensures queue == old(queue) && delegated == old(delegated) + [LoginCall(req)]
    {
      delegated := delegated + [LoginCall(req)];
      r := service.login(req);
    }

    /** `CheckLoginEmail`: the service's answer; nothing is queued. */
    method CheckLoginEmail(email: string) returns (err: Option<Error>)
      modifies this
      ensures err == service.checkLoginEmail(email)
      ensures queue == old(queue) && delegated == old(delegated) + [CheckLoginEmailCall(email)]
    {
      delegated := delegated + [CheckLoginEmailCall(email)];
      err := service.checkLoginEmail(email);
    }

    /** `UserInfo`: the service's answer; nothing is queued. */
    method UserInfo(email: string) returns (r: Result<Users>)
      modifies this
      ensures r == service.userInfo(email)
      ensures queue == old(queue) && delegated == old(delegated) + [UserInfoCall(email)]
    {
      delegated := delegated + [UserInfoCall(email)];
      r := service.userInfo(email);
    }

    /** `UploadAvatar`: the service's answer; nothing is queued. */
    method UploadAvatar(email: string, file: FileHeader) returns (err: Option<Error>)
      modifies this
      ensures err == service.uploadAvatar(email, file)
      ensures queue == old(queue) && delegated == old(delegated) + [UploadAvatarCall(email, file)]
    {
      delegated := delegated + [UploadAvatarCall(email, file)];
      err := service.uploadAvatar(email, file);
    }
  }
}
