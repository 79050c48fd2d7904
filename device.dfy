/** The portable player as the engine sees it through its debug-bridge
    client: whether it can be reached, the files on it, the folders that
    exist or cannot be made, and a script of results for the pushes to come
    (the k-th push succeeds exactly when the script says so; a push past the
    end of the script fails). Every connect, folder creation, push, pause
    between retries and disconnect is recorded in order; the existence
    checks (`FileExists`) read the device and are not recorded. */
module DeviceOracle {
  import opened Paths

  /** What a push carries: a copy of a library file, or generated text. */
  datatype Payload = Copy(source: Path) | Text(content: string)

  datatype Event =
    | Connected(ok: bool)
    | MadeDir(path: Path, ok: bool)
    | Pushed(remote: Path, payload: Payload, ok: bool)
    | Paused
    | Disconnected

  datatype Device = Device(
    reachable: bool,
    script: seq<bool>,
    blockedDirs: set<Path>,
    pushes: nat,
    present: set<Path>,
    dirs: set<Path>,
    trace: seq<Event>)

  /** The scripted result of the next push. */
  predicate NextPushSucceeds(d: Device) {
    d.pushes < |d.script| && d.script[d.pushes]
  }

  /** `connect`: succeeds exactly when the player is reachable. */
  function Connect(d: Device): (r: (bool, Device))
    ensures r.1.trace == d.trace + [Connected(r.0)]
    ensures r.0 == d.reachable
    ensures r.1.(trace := d.trace) == d
  {
    (d.reachable, d.(trace := d.trace + [Connected(d.reachable)]))
  }

  /** `file_exists`: a regular file is at `p`. */
  predicate FileExists(d: Device, p: Path) {
    p in d.present
  }

  /** `mkdir(p, create_parents=True)`: true when the folder was made or was
      already there, and then it exists. */
  function Mkdir(d: Device, p: Path): (r: (bool, Device))
    ensures r.0 <==> p in r.1.dirs
    ensures r.1.dirs == if p in d.blockedDirs then d.dirs else d.dirs + {p}
    ensures r.1.trace == d.trace + [MadeDir(p, r.0)]
    ensures r.1.present == d.present && r.1.pushes == d.pushes
  {
    var ok := p !in d.blockedDirs || p in d.dirs;
    var dirs := if p in d.blockedDirs then d.dirs else d.dirs + {p};
    (ok, d.(dirs := dirs, trace := d.trace + [MadeDir(p, ok)]))
  }

  /** `push_file`: consumes one scripted result; on success the file is on
      the player afterwards. */
  function Push(d: Device, remote: Path, payload: Payload): (r: (bool, Device))
    ensures r.0 == NextPushSucceeds(d)
    ensures r.1.pushes == d.pushes + 1
    ensures r.1.present == if r.0 then d.present + {remote} else d.present
    ensures r.1.trace == d.trace + [Pushed(remote, payload, r.0)]
    ensures r.1.script == d.script && r.1.dirs == d.dirs
  {
    var ok := NextPushSucceeds(d);
    (ok, d.(pushes := d.pushes + 1,
            present := if ok then d.present + {remote} else d.present,
            trace := d.trace + [Pushed(remote, payload, ok)]))
  }

  /** The three-second wait before a retry. */
  function Pause(d: Device): (r: Device)
    ensures r.trace == d.trace + [Paused]
    ensures r.(trace := d.trace) == d
  {
    d.(trace := d.trace + [Paused])
  }

  /** `disconnect`. */
  function Disconnect(d: Device): (r: Device)
    ensures r.trace == d.trace + [Disconnected]
    ensures r.(trace := d.trace) == d
  {
    d.(trace := d.trace + [Disconnected])
  }
}
