/** The sizes, page numbers and error codes that several parts of the system share. */
module Params {
  const NR_TASKS := 10

  const PAGE := 0x1000       // PAGE_SIZE
  const TOTAL_PAGES := 1024
  const NUM_PAG_KERNEL := 256
  const NUM_PAG_DATA := 20
  const NUM_PAG_CODE := 8
  const DATA := 256          // PAG_LOG_INIT_DATA, the first user page
  const CODE := 276          // PAG_LOG_INIT_CODE
  const HEAP := 284          // PAG_LOG_INIT_HEAP

  const EBADF := 9
  const ENOMEM := 12
  const EFAULT := 14
  const EINVAL := 22
}
