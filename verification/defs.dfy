/** Build-time constants of the PMD block driver, the Linux error numbers it
    returns, and the small value types shared by the other modules. */
module PmdDefs {

  /** A byte of the backing window or of a caller buffer. */
  type Byte = bv8

  datatype Option<+T> = None | Some(value: T)

  /** Physical address of the backing window (the primary mapping attempt). */
  const PmdBase: nat := 0x8400_0000

  /** Added to PmdBase for the one fallback mapping attempt. */
  const FallbackOffset: nat := 0x1000_0000

  /** Capacity of the device in sectors; also the capacity published to the host. */
  const PmdSectors: nat := 0x1_0000

  const KernelSectorSize: nat := 512

  /** pmd_size: bytes in the backing window. */
  const PmdSize: nat := PmdSectors * KernelSectorSize

  /** Linux errno values (positive; the driver returns their negation). */
  const EIO: int := 5
  const ENOMEM: int := 12
  const EBUSY: int := 16

  /** `pos << 9`: the byte offset of a sector position. */
  function SectorToOffset(pos: nat): (start: nat)
    ensures start % KernelSectorSize == 0
    ensures start / KernelSectorSize == pos
  {
    pos * KernelSectorSize
  }

  /** The window is 32 MiB, and every sector of the published capacity lies in it. */
  lemma PmdSizeIs32MiB()
    ensures PmdSize == 32 * 1024 * 1024
    ensures forall pos: nat :: pos < PmdSectors ==> SectorToOffset(pos) + KernelSectorSize <= PmdSize
  {
  }
}
