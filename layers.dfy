/**
 * The layer a metabase path belongs to, as Metabase.__init__ classifies it: a remote index,
 * a MySQL table, the user's own directory, a system-wide directory, the current directory,
 * or a subdirectory of it.
 */
module Layers {

  import Names

  datatype Layer = Remote | MySQL | My | System | Here | Subdir

  /** The host's path conventions: os.path.expanduser, os.path.isabs, os.sep and os.curdir. */
  datatype PathEnv = PathEnv(expandUser: string -> string, isAbs: string -> bool, sep: char, curdir: string)

  const HttpScheme := "http://"
  const MySQLScheme := "mysql:"

  /** The user's home directory: `os.path.expanduser('~')`. */
  function Home(env: PathEnv): string {
    env.expandUser("~")
  }

  /** A file path at or below the home directory. */
  predicate UnderHome(path: string, env: PathEnv) {
    path == Home(env) || Names.StartsWith(path, Home(env) + [env.sep])
  }

  /** The path Metabase.__init__ hands to its database: `mysql:` stripped, `~` expanded for files. */
  function OpenedPath(dbpath: string, env: PathEnv): (p: string)
    ensures Names.StartsWith(dbpath, HttpScheme) ==> p == dbpath
    ensures !Names.StartsWith(dbpath, HttpScheme) && Names.StartsWith(dbpath, MySQLScheme) ==> MySQLScheme + p == dbpath
  {
    if Names.StartsWith(dbpath, HttpScheme) then dbpath
    else if Names.StartsWith(dbpath, MySQLScheme) then dbpath[|MySQLScheme|..]
    else env.expandUser(dbpath)
  }

  /** The layer a path is recorded under; the first test that matches decides. */
  function LayerOf(dbpath: string, env: PathEnv): (l: Layer)
    // a path that no test claims is a subdirectory
    ensures l == Subdir <==>
      !Names.StartsWith(dbpath, HttpScheme) && !Names.StartsWith(dbpath, MySQLScheme)
      && var p := OpenedPath(dbpath, env);
      !UnderHome(p, env) && !env.isAbs(p) && Names.Split(p, env.sep)[0] != env.curdir
  {
    if Names.StartsWith(dbpath, HttpScheme) then Remote
    else if Names.StartsWith(dbpath, MySQLScheme) then MySQL
    else
      var p := env.expandUser(dbpath);
      if UnderHome(p, env) then My
      else if env.isAbs(p) then System
      else if Names.Split(p, env.sep)[0] == env.curdir then Here
      else Subdir
  }

  /** A scheme decides the layer before any path test: an `http://` path is remote, a `mysql:` one MySQL. */
  lemma SchemeLayers(dbpath: string, env: PathEnv)
    ensures LayerOf(dbpath, env) == Remote <==> Names.StartsWith(dbpath, HttpScheme)
    ensures LayerOf(dbpath, env) == MySQL <==> !Names.StartsWith(dbpath, HttpScheme) && Names.StartsWith(dbpath, MySQLScheme)
  {
  }

  /** The four file layers, with the home test ahead of the absolute-path test. */
  lemma FileLayers(dbpath: string, env: PathEnv)
    requires !Names.StartsWith(dbpath, HttpScheme) && !Names.StartsWith(dbpath, MySQLScheme)
    ensures var p := OpenedPath(dbpath, env);
      (LayerOf(dbpath, env) == My <==> UnderHome(p, env))
      && (LayerOf(dbpath, env) == System <==> !UnderHome(p, env) && env.isAbs(p))
      && (LayerOf(dbpath, env) == Here <==>
            !UnderHome(p, env) && !env.isAbs(p) && Names.Split(p, env.sep)[0] == env.curdir)
  {
  }

  /** A path whose first component is the current directory is `here`, never `subdir`. */
  lemma CurdirPathIsHere(rest: string, env: PathEnv)
    requires |env.curdir| > 0 && env.sep !in env.curdir
    requires var p := env.curdir + [env.sep] + rest;
      env.expandUser(p) == p && !UnderHome(p, env) && !env.isAbs(p)
      && !Names.StartsWith(p, HttpScheme) && !Names.StartsWith(p, MySQLScheme)
    ensures LayerOf(env.curdir + [env.sep] + rest, env) == Here
  {
    Names.SplitFirst(env.curdir, rest, env.sep);
  }
}
