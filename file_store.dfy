/** The part of the file system the parsers touch: CSV files in the staging
    directory (`<temp>/csv/<name>.csv`) and in the output directory
    (`<out>/<name>.csv`), each a whole text. */
module FileStore {
  import opened Wrappers

  datatype Path = Staging(name: string) | Output(name: string)

  /** The directory tree as a map from path to contents. */
  class Disk {
    var files: map<Path, string>

    constructor(initial: map<Path, string>)
      ensures files == initial
    {
      files := initial;
    }

    /** The contents of `p`, or the empty text when it does not exist. */
    function Contents(p: Path): (t: string)
      reads this
      ensures p !in files ==> t == ""
      ensures p in files ==> t == files[p]
    {
      if p in files then files[p] else ""
    }

    /** `fs.writeFile`: creates or truncates `p`. */
    method WriteFile(p: Path, text: string)
      modifies this
      ensures files == old(files)[p := text]
    {
      files := files[p := text];
    }

    /** `fs.appendFile`: creates `p` when missing, then adds `text` at its end. */
    method AppendFile(p: Path, text: string)
      modifies this
      ensures files == old(files)[p := old(Contents(p)) + text]
    {
      files := files[p := Contents(p) + text];
    }

    /** `fs.rename`: moves the contents of `src` to `dst`, replacing what
        `dst` held; fails with ENOENT when `src` does not exist. */
    method Rename(src: Path, dst: Path) returns (r: Outcome<string>)
      modifies this
      ensures src in old(files) ==> r == Pass && files == (old(files) - {src})[dst := old(files)[src]]
      ensures src !in old(files) ==> r == Fail("ENOENT") && files == old(files)
    {
      if src in files {
        files := (files - {src})[dst := files[src]];
        r := Pass;
      } else {
        r := Fail("ENOENT");
      }
    }
  }
}
