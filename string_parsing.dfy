/** StringParsing: the second copy of file-extension extraction, which returns
    "" explicitly when the name ends in '.'. */
module StringParsing {
  import opened JavaString
  import ParsingUtil

  function FileExtension(fileName: string): (r: string)
    ensures '.' !in fileName ==> r == ""
    ensures |fileName| > 0 && fileName[|fileName| - 1] == '.' ==> r == ""
    ensures |r| <= |fileName| && r == fileName[|fileName| - |r|..]
    ensures r != "" ==> '.' !in r && |r| < |fileName| && fileName == fileName[..|fileName| - |r| - 1] + "." + r
    ensures '.' in fileName && fileName[|fileName| - 1] != '.' ==> r != ""
  {
    var dotIndex := LastIndexOf(fileName, '.');
    if dotIndex == -1 || dotIndex == |fileName| - 1 then ""
    else
      var r := fileName[dotIndex + 1..];
      assert fileName == fileName[..dotIndex] + "." + r;
      r
  }

  /** Both extension functions give the same answer on every name: the
      substring after a trailing '.' is already empty. */
  lemma AgreesWithParsingUtil(fileName: string)
    ensures FileExtension(fileName) == ParsingUtil.FileExtension(fileName)
  {
  }
}
