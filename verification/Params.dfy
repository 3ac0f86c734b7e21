/** Constants that several parts of the system share (kernel/param.h, kernel/fs.h, kernel/stat.h). */
module Params {
  const NUL := '\0'

  const MAXOPBLOCKS := 10             // blocks one file-system operation may log
  const LOGSIZE := MAXOPBLOCKS * 3    // blocks the log reserves against

  const BSIZE := 1024                 // bytes of a block
  const ROOTINO := 1                  // the root directory
  const DIRSIZ := 14                  // bytes of a name in a directory

  const T_DIR := 1
  const T_FILE := 2
}
