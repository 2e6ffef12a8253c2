/** The hub's custom configuration as the hook sees it: the per-user
    workspace lists under `custom.users.<user>.workspaces` and the workspace
    table under `custom.workspaces`. The store is loaded once and cached, so
    the dictionaries it hands out are shared: writes into them persist. */
module Config {
  import opened Dates

  datatype Option<T> = None | Some(value: T) {
    function GetOr(default: T): T {
      match this
      case Some(v) => v
      case None => default
    }
  }

  datatype Result<T, E> = Success(value: T) | Failure(error: E)

  /** A field of a raw Kubernetes object dictionary. */
  datatype Field = Text(text: string) | Flag(flag: bool) | Nested(fields: map<string, Field>)

  /** A raw dictionary describing a volume or a volume mount, as written in the configuration. */
  type Raw = map<string, Field>

  /** A workspace's `storage` dictionary: `volumes` and `volume_mounts` lists, among other keys. */
  type Storage = map<string, seq<Raw>>

  /** The `kubespawner_override` bundle: the pod labels it adds and its other
      settings (image, resource guarantees and limits), which the hook passes through. */
  datatype Override = Override(extraLabels: map<string, string>, settings: map<string, string>)

  /** One entry of `custom.workspaces`. `attributes` holds the display fields
      (`display_name`, `description`, `default`) that the hook never touches. */
  datatype Workspace = Workspace(
    endDate: Option<Date>,
    slug: Option<string>,
    kubespawnerOverride: Option<Override>,
    storage: Option<Storage>,
    attributes: map<string, string>)

  /** The loaded configuration store. */
  class ConfigStore {
    /** `custom.users`: each user's list of workspace names. */
    var users: map<string, seq<string>>
    /** `custom.workspaces`: workspace name to its configuration. */
    var workspaces: map<string, Workspace>

    constructor (users: map<string, seq<string>>, workspaces: map<string, Workspace>)
      ensures this.users == users && this.workspaces == workspaces
    {
      this.users := users;
      this.workspaces := workspaces;
    }
  }

  /** `get_config("custom.users.<user>.workspaces", [])`, collapsed by `set(...)`. */
  function UserWorkspaceNames(users: map<string, seq<string>>, user: string): set<string> {
    if user in users then set n | n in users[user] else {}
  }
}
