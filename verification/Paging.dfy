/** The page size of ucore/kern/mm/mmu.h. */
module Paging {
  const PGSIZE: nat := 4096
}
