/** The configuration and the service files together: the directories that a configuration gives can be loaded. */
module ConfiguredServices {
  import opened BusTypes
  import opened ServiceFiles
  import opened ServiceFilesProofs
  import opened ServiceReloads
  import ConfigInlining
  import ConfigParser

  /** The directories of this reload are those of a configuration that was loaded. */
  predicate Configured(env: ConfigParser.Env, path: string, r: Reload) {
    ConfigParser.LoadTop(env, path).Ok? && Paths(r.todo) == ConfigParser.LoadTop(env, path).value.serviceDirs
  }

  /** The service directories that a configuration gives are distinct, whatever it includes, so they can be reloaded. */
  lemma ConfiguredDirectories(env: ConfigParser.Env, path: string, c: Cache, tight: bool, r: Reload,
                              history: map<Version, Option<Content>>)
    requires Configured(env, path, r) && Kept(c, tight, history) && WalksAll(c, r) && Dated(r.fs, history)
    ensures Possible(c, Reloaded(r), history) && Kept(ReloadAll(c, r).0, tight && LoadHasRoom(r.todo), history)
  {
    ConfigInlining.FileDistinct(env, path, ConfigParser.DEFAULT_LIMITS, []);
    StepKeeps(c, tight, Reloaded(r), history);
  }
}
