/** The command line (s3_upload_organizer.py, main): the destination
    must start with `s3://`, and `--execute` alone decides whether the
    run is a dry run. */
module Cli {

  import opened Wrappers
  import opened Destination
  import opened Pipeline

  /** argparse's `parser.error` ends the program with status 2. */
  const USAGE_EXIT: int := 2

  /** The parsed options: `--url`, `--s3-path`, `--dry-run`, `--execute`. */
  datatype Args = Args(url: string, s3Path: string, dryRun: bool, execute: bool)

  /** What process_files is called with. */
  datatype Config = Config(url: string, s3Path: string, dryRun: bool)

  datatype Checked = UsageError(message: string) | Accepted(config: Config)

  /** Lines 165-169: reject a destination without the scheme, and derive
      the effective dry-run flag from `--execute` alone. */
  function Validate(args: Args): (c: Checked)
    ensures c.Accepted? <==> SCHEME <= args.s3Path
    ensures c.Accepted? ==> c.config == Config(args.url, args.s3Path, !args.execute)
  {
    if !(SCHEME <= args.s3Path) then UsageError("S3 path must start with 's3://'")
    else Accepted(Config(args.url, args.s3Path, !args.execute))
  }

  /** `--dry-run` has no effect on anything: it defaults to true and
      `--execute` overrides it. */
  lemma DryRunFlagIgnored(args: Args)
    ensures Validate(args.(dryRun := true)) == Validate(args.(dryRun := false))
  {
  }

  /** A destination given with another scheme is refused. */
  lemma OtherSchemeRejected()
    ensures Validate(Args("https://example.com/files/", "http://bucket/prefix", true, false)).UsageError?
  {
    assert "http://bucket/prefix"[1] != SCHEME[1];
  }

  /** main: validate the arguments, then run process_files on the page
      that `--url` yields, and exit with its result. `fetched` says
      whether the page was asked for at all. */
  method RunCommand(args: Args, page: Option<seq<Link>>)
    returns (exit: int, fetched: bool, uploads: seq<Upload>)
    ensures fetched <==> SCHEME <= args.s3Path
    ensures !fetched ==> exit == USAGE_EXIT && uploads == []
    ensures fetched ==> var t := Process(args.s3Path, page, !args.execute);
      exit == t.code && uploads == t.uploads
    ensures exit == 0 || exit == 1 || exit == USAGE_EXIT
    ensures !args.execute ==> uploads == []
  {
    match Validate(args)
    case UsageError(_) =>
      exit, fetched, uploads := USAGE_EXIT, false, [];
    case Accepted(config) =>
      var stats;
      fetched := true;
      exit, stats, uploads := ProcessFiles(config.s3Path, page, config.dryRun);
  }
}
